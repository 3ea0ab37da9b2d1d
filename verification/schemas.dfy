/**
 The shapes of the messages, presence records and directory requests the
 core exchanges, as the TypeScript types describe them.

 Text carried by the binary codec is held as its UTF-8 bytes (what
 `TextEncoder.encode` produces for it); text held by the directory is a
 `string`.
 */
module Schemas {
  import opened Results
  import opened Bytes

  /** A codec text field: the UTF-8 bytes of the string. */
  type Text = Bytes

  /** Messages a client sends to its collaboration room. */
  datatype ClientMessage =
    | ClientChangeTool(toolName: Text)
    | ClientText(text: Text)
    | ClientWriteFile(path: Text, content: Text)
    | ClientPaletteImageUpload(path: Text, versionId: Text)
    | ClientCursorUpdate(tool: Option<Text>, x: Float32, y: Float32)

  /** One user's presence in one room. */
  datatype UserEntry = UserEntry(
    username: string,
    joinedAt: string,
    leftAt: Option<string>,
    present: bool,
    currentTool: Option<string>)

  /** The directory's record for one room. */
  datatype SessionInfo = SessionInfo(id: string, connections: int, users: seq<UserEntry>)

  /** Messages a client receives: relayed events carry the sender's id and username. */
  datatype ServerMessage =
    | ServerText(text: Text, clientId: Text, username: Text)
    | ServerWriteFile(path: Text, content: Text, clientId: Text, username: Text)
    | ServerPaletteImageUpload(path: Text, versionId: Text, clientId: Text, username: Text)
    | ServerSessionUpdate(sessions: set<SessionInfo>)
    | ServerCursorUpdate(tool: Option<Text>, x: Float32, y: Float32, clientId: Text, username: Text)

  /** A directory mutation, as it arrives after validation of the POST body. */
  datatype SessionRequest =
    | JoinRequest(id: string, connections: int, username: string)
    | LeaveRequest(id: string, connections: int, username: string)
    | DeleteRequest(id: string, username: string)
    | ChangeToolRequest(toolName: string, id: string, connections: int, username: string)
}
