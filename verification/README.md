# meddler: binary codec, message framing and rooms, in Dafny

meddler is a collaborative editor whose clients talk to two kinds of
PartyKit rooms:

- a **session room** (one per editing session) that admits connections
  carrying a username, relays the clients' binary frames to the other
  clients with the sender's id and username appended, and records each
  connection's current tool;
- the singleton **sessions directory** (room id `"sessions"`) that keeps one
  presence record per session room and rewrites it on every `join`, `leave`,
  `changeTool` and `delete` notification.

The frames are built with a small cursor-based codec: `BinaryWriter` and
`BinaryReader` write and read little-endian integers, opaque floats, bools
packed into bits, and strings as a u32 length followed by the UTF-8 bytes.
`BinaryMessage` lays out the tagged client and server messages with it.

The model is functional. Buffers are `seq<byte>`; the writer and the reader
are values threaded through functions that return `Result` (overflow, range
error, truncation, unknown kind). Each room handler is a pure function from
the room's state and one event to the new state and the effects the handler
causes (closing a connection, a broadcast, a directory notification).

| file | module | models |
|---|---|---|
| `results.dfy` | `Results` | `Option`, the error kinds, `Result` |
| `bytes.dfy` | `Bytes` | bytes, little-endian layout, two's complement, slices, bits |
| `utf8.dfy` | `Utf8` | `TextEncoder.encode` and the UTF-16 `.length` of a string |
| `binary_writer.dfy` | `BinaryWriter` | `BinaryWriter`; a write list and its layout |
| `binary_reader.dfy` | `BinaryReader` | `BinaryReader` |
| `read_write.dfy` | `ReadWrite` | each read against the write it undoes |
| `schemas.dfy` | `Schemas` | the message, record and request shapes |
| `binary_message.dfy` | `BinaryMessage` | the four encoders/decoders, round trips, truncated frames |
| `sessions.dfy` | `Sessions` | the presence directory |
| `session.dfy` | `Session` | a session room, and its effect on the directory |

Text fields of the binary messages are their UTF-8 bytes. Where a room turns
bytes back into a JavaScript string (the tool name of a `changeTool` frame),
the decoder is a function parameter. Connection ids and usernames are Dafny
`string`s (Unicode scalar values) with a concrete UTF-8 encoder and UTF-16
length. This is what shows that the relay buffer is only big enough for
ASCII ids and usernames.

A truncated frame does not always fail to decode: `readString`
(`src/utils/BinaryReader.ts:105-113`) bounds-checks only the 4-byte length
prefix of a string and returns whatever body bytes remain, so a frame cut
inside its last string decodes to a shortened string
(`BinaryMessage.TextFrameCutInBody`, `BinaryMessage.ServerFrameCutInUsername`).
A frame cut before its last fixed-width field does fail
(`BinaryMessage.CursorPrefixRejected`).

## Model

| member | source | states |
|---|---|---|
| Bytes.FromLEOfLE | src/utils/BinaryReader.ts:73-79 | reading `k` little-endian bytes gives back the value they were written from |
| Bytes.LEOfFromLE | src/utils/BinaryWriter.ts:48-54 | every `k`-byte pattern is the little-endian layout of exactly one value |
| Utf8.EncodedLengthBounds | src/session.ts:57 | a string's UTF-8 byte length is at least its UTF-16 `.length`, and equal exactly when the string is ASCII |
| BinaryWriter.New | src/utils/BinaryWriter.ts:9-14 | a fresh writer has a zeroed buffer of the requested size, cursor at byte 0, bit 0 |
| BinaryWriter.WriteBool | src/utils/BinaryWriter.ts:16-22 | ORs the value into bit `bitOffset` of the current byte, other bits and bytes unchanged; the byte cursor moves only after the eighth bit; past the end nothing is stored |
| BinaryWriter.WriteUInt8 | src/utils/BinaryWriter.ts:24-30 | succeeds iff 0 <= value < 256 and a byte is left; an out-of-range value is an overflow; stores the value at the cursor, changes no other byte, advances by 1 and keeps the bit position |
| BinaryWriter.WriteUInt16 | src/utils/BinaryWriter.ts:32-38 | succeeds iff value in [0, 65535] with 2 bytes left; stores it little-endian, changes nothing else, advances by 2 |
| BinaryWriter.WriteInt16 | src/utils/BinaryWriter.ts:40-46 | succeeds iff value in [-32768, 32767] with 2 bytes left; the stored bytes read as that value in two's complement; advances by 2 |
| BinaryWriter.WriteUInt32 | src/utils/BinaryWriter.ts:48-54 | succeeds iff value in [0, 0xffffffff] with 4 bytes left; stores it little-endian, changes nothing else, advances by 4 |
| BinaryWriter.WriteInt32 | src/utils/BinaryWriter.ts:56-62 | succeeds iff value in [-2^31, 2^31-1] with 4 bytes left; two's-complement little-endian; advances by 4 |
| BinaryWriter.WriteFloat | src/utils/BinaryWriter.ts:74-77 | the four float bytes land at the cursor when they fit; advances by 4 |
| BinaryWriter.WriteDouble | src/utils/BinaryWriter.ts:79-82 | the eight double bytes land at the cursor when they fit; advances by 8 |
| BinaryWriter.WriteBytes | src/utils/BinaryWriter.ts:68-72 | succeeds iff the length fits a u32 and 4 + length bytes are left; stores the u32 length then the bytes; advances by 4 + length; a too-long array is an overflow |
| BinaryWriter.WriteString | src/utils/BinaryWriter.ts:84-89 | the same layout over the string's UTF-8 bytes; advances by 4 + UTF-8 length |
| BinaryWriter.ApplyAppends | src/utils/BinaryWriter.ts:24-89 | one write succeeds iff its value is in range and its field fits, and appends the field's reference layout to the bytes already written |
| BinaryWriter.RunAppends | src/utils/BinaryWriter.ts:24-89 | a list of writes succeeds iff every value is in range and the whole layout fits; the written bytes are the old ones followed by each field's layout in order |
| BinaryWriter.RunRejects | src/utils/BinaryWriter.ts:24-54 | when the whole layout has room, a list of writes can fail only with an overflow (a value out of range) |
| BinaryReader.GetNextOffset | src/utils/BinaryReader.ts:115-124 | skips a partly read bool byte, then succeeds iff `k` bytes remain; failure is a truncation |
| BinaryReader.ReadUint8 | src/utils/BinaryReader.ts:51-55 | fails iff no byte remains after the skip; returns the byte there and moves one past it |
| BinaryReader.ReadUint16 | src/utils/BinaryReader.ts:57-63 | fails iff fewer than 2 bytes remain; returns their little-endian value; advances by 2 |
| BinaryReader.ReadInt16 | src/utils/BinaryReader.ts:65-71 | the same, read in two's complement |
| BinaryReader.ReadUint32 | src/utils/BinaryReader.ts:73-79 | fails iff fewer than 4 bytes remain; returns their little-endian value; advances by 4 |
| BinaryReader.ReadInt32 | src/utils/BinaryReader.ts:81-87 | the same, read in two's complement |
| BinaryReader.ReadFloat | src/utils/BinaryReader.ts:97-103 | fails iff fewer than 4 bytes remain; returns those four bytes; advances by 4 |
| BinaryReader.ReadDouble | src/utils/BinaryReader.ts:89-95 | fails iff fewer than 8 bytes remain; returns those eight bytes; advances by 8 |
| BinaryReader.ReadBool | src/utils/BinaryReader.ts:31-38 | fails (range error) iff the cursor is past the end; returns bit `bitOffset` of the current byte; moves to the next byte only after the eighth bit |
| BinaryReader.ReadBytes | src/utils/BinaryReader.ts:44-49 | fails iff the 4-byte length is missing; returns at most `length` bytes, clamped to the buffer end, and moves the cursor by the full declared length |
| BinaryReader.ReadString | src/utils/BinaryReader.ts:105-113 | the same check and result: only the length prefix is bounds-checked |
| BinaryReader.ReadStringIsReadBytes | src/utils/BinaryReader.ts:105-113 | the extra prefix check of `readString` changes nothing: it reads exactly as `readBytes` |
| BinaryReader.New | src/utils/BinaryReader.ts:15-21 | a fresh reader is over the given bytes with the cursor at byte 0, bit 0; it has more to read iff the bytes are non-empty |
| BinaryReader.Peek | src/utils/BinaryReader.ts:27-29 | `peek` is true iff `readBool` succeeds, and, with no partial bool byte, iff `readUint8` succeeds |
| BinaryReader.PeekMeansByteAvailable | src/utils/BinaryReader.ts:27-29 | with no partial bool byte, `peek` is true iff `readUint8` succeeds |
| BinaryReader.ReadLp | src/utils/BinaryReader.ts:105-113 | a complete length-prefixed field reads back as its bytes, cursor just past it |
| BinaryReader.ReadLpCut | src/utils/BinaryReader.ts:105-113 | a field whose body is cut short reads back as what is left, cursor where the full body would end |
| BinaryReader.StringOverrun | src/utils/BinaryReader.ts:105-124 | after a declared length longer than what remains, the string is shorter than declared, the cursor is past the end, `peek` is false and every later read fails |
| ReadWrite.UInt8RoundTrip | src/utils/BinaryReader.ts:51-55 | `readUint8` at the writer's old cursor gives back the value `writeUInt8` stored, one byte on |
| ReadWrite.UInt16RoundTrip | src/utils/BinaryReader.ts:57-63 | `readUint16` gives back what `writeUInt16` stored, two bytes on |
| ReadWrite.Int16RoundTrip | src/utils/BinaryReader.ts:65-71 | `readInt16` gives back what `writeInt16` stored, negative values included |
| ReadWrite.UInt32RoundTrip | src/utils/BinaryReader.ts:73-79 | `readUint32` gives back what `writeUInt32` stored, four bytes on |
| ReadWrite.Int32RoundTrip | src/utils/BinaryReader.ts:81-87 | `readInt32` gives back what `writeInt32` stored |
| ReadWrite.FloatRoundTrip | src/utils/BinaryReader.ts:97-103 | `readFloat` gives back the four bytes `writeFloat` stored |
| ReadWrite.DoubleRoundTrip | src/utils/BinaryReader.ts:89-95 | `readDouble` gives back the eight bytes `writeDouble` stored |
| ReadWrite.BytesRoundTrip | src/utils/BinaryReader.ts:44-49 | `readBytes` gives back what `writeBytes` stored, cursor past the prefix and body |
| ReadWrite.StringRoundTrip | src/utils/BinaryReader.ts:105-113 | `readString` gives back the UTF-8 bytes `writeString` stored, cursor past them |
| ReadWrite.StringReadOfBytes | src/utils/BinaryReader.ts:105-113 | `readString` also gives back what `writeBytes` stored |
| ReadWrite.BoolRoundTrip | src/utils/BinaryReader.ts:31-38 | on a clear bit, `readBool` gives back what `writeBool` wrote and both cursors move alike |
| ReadWrite.BoolCannotClear | src/utils/BinaryWriter.ts:16-22 | writing `false` over a set bit leaves it reading `true` |
| ReadWrite.BoolThenByteDisagree | src/utils/BinaryWriter.ts:16-30 | `writeBool(true)` then `writeUInt8(0x80)` in two bytes stores `[0x80, 0]`, which reads back as `false` then `0`: the writer does not skip a partial bool byte, the reader does |
| BinaryMessage.ToolOf | src/utils/BinaryMessage.ts:105 | an empty tool byte string decodes to no tool, and a present tool encodes back to the same bytes |
| BinaryMessage.ClientOpsLayout | src/utils/BinaryMessage.ts:15-67 | the writes of each client kind are in range iff every text field fits a u32 length; their total size is the size computed before allocation; their layout is the tag then each field |
| BinaryMessage.EncodeClient | src/utils/BinaryMessage.ts:15-70 | succeeds iff every text field fits a u32 length, else overflows; the frame has exactly the allocated length, starts with the kind's tag and has the reference layout |
| BinaryMessage.ReadOneField | src/utils/BinaryMessage.ts:77-86 | a `changeTool` or `text` body is one string; every failure is a truncation; a string body cut short still decodes to the bytes that remain |
| BinaryMessage.ReadTwoField | src/utils/BinaryMessage.ts:87-101 | a `writeFile` or `paletteImageUpload` body is two strings in order; every failure is a truncation; a string body cut short still decodes to the bytes that remain |
| BinaryMessage.ReadCursorFields | src/utils/BinaryMessage.ts:102-108 | a `cursorUpdate` body is the tool, never an empty one, then x and y |
| BinaryMessage.ReadClientFields | src/utils/BinaryMessage.ts:76-108 | the body of a frame of kind 1 to 5 decodes to a message of that kind or fails with a truncation |
| BinaryMessage.DecodeClient | src/utils/BinaryMessage.ts:72-112 | an empty buffer is a truncation; a tag outside 1 to 5 (including 6) is an unknown kind; a decoded message has the kind of the first byte |
| BinaryMessage.NormalizeOnlyDropsEmptyTool | src/utils/BinaryMessage.ts:105 | decoding changes a message only by turning an empty cursor tool into no tool |
| BinaryMessage.OneFieldRoundTrip | src/utils/BinaryMessage.ts:77-86 | the body of a `changeTool` or `text` frame reads back as the message, stopping at the frame's end |
| BinaryMessage.TwoFieldRoundTrip | src/utils/BinaryMessage.ts:87-101 | the same for `writeFile` and `paletteImageUpload` |
| BinaryMessage.CursorFieldsRoundTrip | src/utils/BinaryMessage.ts:102-108 | the same for `cursorUpdate`, the tool coming back absent if it was empty |
| BinaryMessage.ClientFieldsRoundTrip | src/utils/BinaryMessage.ts:76-108 | any client frame's body reads back as the message, whatever follows the frame |
| BinaryMessage.ClientRoundTrip | src/utils/BinaryMessage.ts:72-112 | on the UTF-8 bytes of each field, decoding a client frame followed by any bytes gives the message back, up to an empty cursor tool |
| BinaryMessage.EncodeDecodeClient | src/utils/BinaryMessage.ts:15-112 | on the UTF-8 bytes of each field, `decodeClientMessage(encodeClientMessage(m))` is `m`, empty strings included, except that an empty cursor tool comes back absent |
| BinaryMessage.ServerOpsExtendClientOps | src/utils/BinaryMessage.ts:146-174 | the writes of each relayed server kind are the client kind's writes followed by the `clientId` and `username` writes |
| BinaryMessage.ServerOpsLayout | src/utils/BinaryMessage.ts:114-175 | server writes are in range iff every field fits; a relayed kind's total size is the allocated size and its layout is the client frame followed by the length-prefixed `clientId` and `username` |
| BinaryMessage.EncodeServer | src/utils/BinaryMessage.ts:114-178 | succeeds iff every field fits, else overflows; a relayed kind yields exactly the allocated bytes in the server layout; `sessionUpdate` yields an empty array |
| BinaryMessage.DecodeServer | src/utils/BinaryMessage.ts:180-223 | an empty buffer is a truncation; only tags 2 to 5 are accepted, so 1 and 6 are unknown kinds; a decoded message has the kind of the first byte |
| BinaryMessage.ReadSenderAt | src/utils/BinaryMessage.ts:189-190 | the `clientId` and `username` fields read back in order after the client fields |
| BinaryMessage.ServerRoundTrip | src/utils/BinaryMessage.ts:180-219 | on the UTF-8 bytes of each field, decoding a relayed server frame followed by any bytes gives the message back, up to an empty cursor tool |
| BinaryMessage.EncodeDecodeServer | src/utils/BinaryMessage.ts:114-223 | on the UTF-8 bytes of each field, `decodeServerMessage(encodeServerMessage(m))` is `m` for the four relayed kinds, except that an empty cursor tool comes back absent |
| BinaryMessage.DecodeClientOfServerFrame | src/utils/BinaryMessage.ts:72-108 | the client decoder reads a server frame as the client message it relays, ignoring the sender fields |
| BinaryMessage.ReadCutFieldAt | src/utils/BinaryReader.ts:105-113 | a string field cut after `k` body bytes reads back as those `k` bytes without error |
| BinaryMessage.TextFrameCutInBody | src/utils/BinaryMessage.ts:82-86 | a `text` frame cut anywhere inside its text decodes to the text's first bytes |
| BinaryMessage.ServerFrameCutInUsername | src/utils/BinaryMessage.ts:180-219 | a relayed server frame cut inside its username decodes to the message with a shortened username |
| BinaryMessage.CursorPrefixRejected | src/utils/BinaryMessage.ts:102-108 | a `cursorUpdate` frame missing any byte fails with a truncation: its last field is a float, whose read is bounds-checked |
| Sessions.FreshEntry | src/sessions.ts:60-64 | the entry a join adds is present, joined now, with no leave time and no tool |
| Sessions.WithoutUser | src/sessions.ts:59 | filtering keeps exactly the entries of other users and changes nothing when the user is absent |
| Sessions.WithoutUserDistributes | src/sessions.ts:59 | filtering keeps the order of the remaining entries |
| Sessions.WithoutUserKeepsUnique | src/sessions.ts:59 | filtering a list without duplicate usernames leaves none |
| Sessions.Joined | src/sessions.ts:58-64 | after a join the fresh entry is first and is followed by exactly the old entries without the user's name, in their order |
| Sessions.MarkLeft | src/sessions.ts:72-79 | a leave marks the user's entries absent with the time and keeps every other entry, in place |
| Sessions.SetTool | src/sessions.ts:65-71 | a tool change sets the tool on the user's entries and keeps every other entry, in place |
| Sessions.InPlaceUpdatesKeepNames | src/sessions.ts:65-80 | leave and tool change keep the list's usernames in order, hence their uniqueness |
| Sessions.JoinedKeepsUnique | src/sessions.ts:58-64 | a join keeps usernames unique |
| Sessions.UpdatedUsers | src/sessions.ts:57-81 | an empty username leaves the users as they were; a join puts the fresh entry in front of the others in order; a changeTool or leave keeps every name in place, changes only the user's entries, and gives them the tool, or marks them absent with the time |
| Sessions.UpdateSessionInfo | src/sessions.ts:35-86 | a delete removes exactly that room's record; a leave for an unknown room changes nothing; anything else writes the room's record with the request's count and the updated user list; no other record changes |
| Sessions.UpdateKeepsValid | src/sessions.ts:35-86 | every update keeps each record under its own id with unique usernames |
| Sessions.JoinPutsUserFirst | src/sessions.ts:58-64 | after a join with a username the record exists and lists the user first, present, exactly once |
| Sessions.FirstNotificationCreatesRecord | src/sessions.ts:49-71 | a join or tool change for an unknown room creates its record with the request's count; a join with a username lists just the fresh entry, and otherwise the list stays empty |
| Sessions.EmptyUsernameKeepsUsers | src/sessions.ts:55-57 | a notification without a username still writes the record and its count but leaves the user list as it was |
| Sessions.ChangeToolIsVisible | src/sessions.ts:65-71 | after a tool change the user's entry shows the tool and nothing else in it changes |
| Sessions.LeaveMarksAbsent | src/sessions.ts:72-79 | after a leave the user's entry is absent with the leave time and every entry stays in place |
| Sessions.Listing | src/sessions.ts:102-105 | the listing holds every stored record and nothing else |
| Sessions.DeleteRemovesFromListing | src/sessions.ts:39-42 | after a delete no listed record has that id and every other record is still listed |
| Sessions.OnRequest | src/sessions.ts:11-33 | any room but `"sessions"` and any method but GET, POST, DELETE gets not-found with no change; GET lists; POST updates, lists and broadcasts the listing; DELETE empties the store and broadcasts an empty listing |
| Sessions.DeleteAllEmptiesListing | src/sessions.ts:26-29 | after a DELETE nothing is listed |
| Sessions.OnRequestKeepsValid | src/sessions.ts:11-33 | every request keeps the store valid |
| Sessions.OnConnect | src/sessions.ts:88-92 | a new directory connection is sent a `sessionUpdate` holding exactly the stored records |
| Session.Update | src/session.ts:119-126 | the notification carries the action, the room id, the live connection count, and the user and tool of the connection, both `""` without state |
| Session.OnConnect | src/session.ts:31-46 | a missing or empty username closes the connection with no state and no notification; otherwise the state is the user and the tool (`""` if none) and a join is sent counting the new connection; other connections are untouched |
| Session.OnClose | src/session.ts:48-51 | the connection is removed and a leave for this room is sent with the remaining count and the connection's user and tool, or `""` without state |
| Session.ConnectThenClose | src/session.ts:31-51 | a close undoes a connect: the room is as before and the leave names this room, the admitted user and their tool, with the original count |
| Session.RelayFrame | src/session.ts:53-65 | the relayed frame is the original bytes followed by the length-prefixed sender id and username; it is built iff both are ASCII (the buffer is sized by UTF-16 length), otherwise the write overruns |
| Session.RelayRun | src/session.ts:58-63 | the two string writes after the original bytes succeed iff they fit and append both fields |
| Session.Tag | src/session.ts:93-95 | the tag is the byte `readUint8` returns from a new reader over the frame, with the cursor after it |
| Session.Relays | src/session.ts:67-89 | the handlers that relay the raw frame are those for text, writeFile, paletteImageUpload and cursorUpdate |
| Session.OnMessage | src/session.ts:91-117 | an empty frame, a sender without state and a tag without handler (0, 6 and above) change nothing; `changeTool` is decoded, updates only the sender's tool, notifies the directory and is never relayed; tags 2 to 5 are relayed, with the sender's id and username appended, to every other connection when both are ASCII; a failure is swallowed |
| Session.RelayDelivers | src/session.ts:53-88 | a relayed client frame from an ASCII sender reaches every other connection as a server frame that decodes to the message with the sender's id and username |
| Session.RelayIsUnchecked | src/session.ts:77-88 | a bare `text` tag, which the client decoder rejects, is still relayed |
| Session.NonAsciiSenderNotRelayed | src/session.ts:57-62 | a sender whose id or username is not ASCII gets nothing relayed and the room is unchanged |
| Session.AsRequest | src/schemas.ts:85-122 | the validated directory request of a notification keeps its room, count and user, and its tool only for a tool change |
| Session.ConnectJoinsDirectory | src/session.ts:31-46 | after a connect with a username, the directory record of the room lists that user first and counts the new connection |
| Session.ChangeToolReachesDirectory | src/session.ts:68-76 | after a tool-change frame, the directory entry of the sender's user shows the decoded tool name |
| Session.OnRequest | src/session.ts:19-29 | a GET returns the record stored under the room's id if there is one; anything else is not found |

## Left out

- Floats and doubles: `x`, `y` and the float/double writes are their stored bytes; the conversion from a JavaScript number to IEEE-754 is not modelled.
- Text decoding: `TextDecoder` (replacement characters, a byte-order mark) is not modelled; codec strings are their UTF-8 bytes, and the one decode a room performs (the tool name) is a function parameter.
- BinaryMessage.EncodeDecodeClient: the round trip holds on the UTF-8 bytes of each field, not on JavaScript strings. `readString` decodes with a fresh `TextDecoder` whose default strips a leading U+FEFF, so a text `"\uFEFFhi"` comes back as `"hi"`.
- BinaryMessage.ClientRoundTrip: the same byte-order-mark loss; the round trip is on UTF-8 bytes.
- BinaryMessage.EncodeDecodeServer: the same byte-order-mark loss applies to every relayed field, including the sender id and username.
- BinaryMessage.ServerRoundTrip: the same byte-order-mark loss; the round trip is on UTF-8 bytes.
- BinaryMessage.ToolOf: a cursor tool of exactly `"\uFEFF"` decodes in the source to `""` and so to no tool; the model sees its three UTF-8 bytes and keeps the tool.
- BinaryReader.New: the constructor's optional `byteOffset` is not modelled; every reader in the codec starts at byte 0.
- Lone surrogates: a Dafny `string` holds Unicode scalar values, so a JavaScript string with a lone surrogate (which `TextEncoder` replaces) cannot be expressed.
- Schema validation: requests reach the directory already validated; zod's rejection of malformed bodies, and constraints such as a non-empty `paletteImageUpload` path, are not modelled.
- Sessions.OnRequest: the storage listing is a set, so the order in which storage lists records is not modelled.
- Session.OnClose: the connection count sent with a leave is taken after the connection is gone; when the runtime drops it from `getConnections` is not visible in the source.
- Concurrency: the async hooks run one at a time; interleaved read-modify-write of the directory is not modelled.
- PartyKit runtime and transport: the connection map, broadcasts, closes and the cross-room POST are state and effects; URL parsing, JSON serialisation, `json`/`notFound` responses and HTTP status codes are not modelled.
- Session.OnRequest: a session room's own storage, which its GET reads, is never written by the modelled code; it is a parameter.
- Logging: the `console.log` / `console.error` calls are not modelled.
- Writer after an error: a write that throws leaves the JavaScript writer part-updated; the model returns an error and no writer.
- Allocation limits of typed arrays and `DataView` bounds beyond the buffer length are not modelled.
- `writeByte` and `readByte` are aliases of `writeUInt8` and `readUint8` and are covered by them.
- Connection counts: the directory takes any integer count, negative ones included, as the schema's `z.number()` does; fractional counts are left out. A session room only ever sends its live connection count, a natural number.
