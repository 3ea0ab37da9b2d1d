/**
 A collaboration room (the hub): it admits connections that name a user,
 relays the peers' binary frames with the sender's id and username appended,
 records tool changes, and notifies the presence directory of every join,
 leave and tool change.

 Each handler is a pure step from the room's connections to the new
 connections and the effects the handler causes, in order. The directory
 notification is the request body it would post; its delivery, the
 transport and the text decoder used for tool names are outside the model
 (the decoder is a parameter).
 */
module Session {
  import opened Results
  import opened Bytes
  import opened Schemas
  import Utf8
  import W = BinaryWriter
  import R = BinaryReader
  import M = BinaryMessage
  import Sessions

  type ConnId = string

  /** What a connection records about its user once admitted. */
  datatype ConnState = ConnState(username: string, currentTool: string)

  /** A room: its id and its open connections, each with its state, if it was admitted. */
  datatype Hub = Hub(id: string, conns: map<ConnId, Option<ConnState>>)

  datatype Action = JoinAction | LeaveAction | ChangeToolAction

  /** The body `updateSessionsList` posts to the directory. */
  datatype UpdateBody = UpdateBody(action: Action, id: string, connections: nat, username: string, toolName: string)

  datatype Effect =
    | Close(conn: ConnId)                             // `conn.close()`
    | Broadcast(frame: Bytes, recipients: set<ConnId>) // `room.broadcast`, to the connections listed
    | Notify(body: UpdateBody)                         // the POST to the directory

  datatype Outcome = Outcome(hub: Hub, effects: seq<Effect>)

  /** `updateSessionsList`: the room, its connection count, and the user and tool of `state`, empty if absent. */
  function Update(hub: Hub, action: Action, state: Option<ConnState>): (body: UpdateBody)
    ensures body.action == action && body.id == hub.id && body.connections == |hub.conns|
    ensures state.Some? ==> body.username == state.value.username && body.toolName == state.value.currentTool
    ensures state.None? ==> body.username == "" && body.toolName == ""
  {
    match state
    case None => UpdateBody(action, hub.id, |hub.conns|, "", "")
    case Some(s) => UpdateBody(action, hub.id, |hub.conns|, s.username, s.currentTool)
  }

  /**
   `onConnect`: a connection without a username (missing or empty) is closed
   and gets no state; otherwise it records the user and the tool (empty if
   none) and the directory is told of the join, counting this connection.
   */
  function OnConnect(hub: Hub, conn: ConnId, username: Option<string>, currentTool: Option<string>): (r: Outcome)
    ensures r.hub.id == hub.id && r.hub.conns.Keys == hub.conns.Keys + {conn}
    ensures forall c | c in hub.conns && c != conn :: r.hub.conns[c] == hub.conns[c]
    ensures username.None? || username == Some("") ==> r.hub.conns[conn].None? && r.effects == [Close(conn)]
    ensures username.Some? && username != Some("") ==>
              var st := ConnState(username.value, currentTool.GetOr(""));
              && r.hub.conns[conn] == Some(st)
              && r.effects == [Notify(UpdateBody(JoinAction, hub.id, |r.hub.conns|, st.username, st.currentTool))]
  {
    if username.None? || username.value == "" then
      Outcome(hub.(conns := hub.conns[conn := None]), [Close(conn)])
    else
      var st := ConnState(username.value, currentTool.GetOr(""));
      var hub' := hub.(conns := hub.conns[conn := Some(st)]);
      Outcome(hub', [Notify(Update(hub', JoinAction, Some(st)))])
  }

  /** `onClose`: the connection is gone and the directory is told of the leave, with the remaining count. */
  function OnClose(hub: Hub, conn: ConnId): (r: Outcome)
    ensures r.hub.id == hub.id && r.hub.conns == hub.conns - {conn}
    ensures |r.effects| == 1 && r.effects[0].Notify?
    ensures var body := r.effects[0].body;
            && body.action == LeaveAction && body.id == hub.id && body.connections == |hub.conns - {conn}|
            && (conn in hub.conns && hub.conns[conn].Some? ==>
                  body.username == hub.conns[conn].value.username && body.toolName == hub.conns[conn].value.currentTool)
            && (conn !in hub.conns || hub.conns[conn].None? ==> body.username == "" && body.toolName == "")
  {
    var state := if conn in hub.conns then hub.conns[conn] else None;
    var hub' := hub.(conns := hub.conns - {conn});
    Outcome(hub', [Notify(Update(hub', LeaveAction, state))])
  }

  /**
   Closing a connection undoes its connect: the room is as before, and the
   leave notification names this room, the admitted user and their tool, with
   the count back where it was.
   */
  lemma ConnectThenClose(hub: Hub, conn: ConnId, username: Option<string>, currentTool: Option<string>)
    requires conn !in hub.conns
    ensures var r := OnClose(OnConnect(hub, conn, username, currentTool).hub, conn);
            var admitted := username.Some? && username != Some("");
            && r.hub == hub
            && r.effects == [Notify(UpdateBody(LeaveAction, hub.id, |hub.conns|,
                                               if admitted then username.value else "",
                                               if admitted then currentTool.GetOr("") else ""))]
  {
    var h1 := OnConnect(hub, conn, username, currentTool).hub;
    assert h1.conns - {conn} == hub.conns;
  }

  /**
   `broadcastWithServerFields`: the original frame followed by the sender's id
   and username as length-prefixed UTF-8 strings, written into a buffer
   sized with the UTF-16 lengths of the two strings. The buffer is only big
   enough when both strings are ASCII; otherwise `writeString` overruns it.
   */
  function RelayFrame(original: Bytes, senderId: string, username: string): (r: Result<Bytes>)
    ensures r.Ok? <==>
              && Utf8.IsAscii(senderId) && Utf8.IsAscii(username)
              && |senderId| <= MAX_U32 && |username| <= MAX_U32
    ensures r.Ok? ==>
              && |Utf8.Encode(senderId)| <= MAX_U32 && |Utf8.Encode(username)| <= MAX_U32
              && r.value == original + Lp(Utf8.Encode(senderId)) + Lp(Utf8.Encode(username))
  {
    var size := |original| + 8 + Utf8.Utf16Length(senderId) + Utf8.Utf16Length(username);
    var w := W.Writer(Splice(Zeros(size), 0, original), |original|, 0);
    var a, b := Utf8.Encode(senderId), Utf8.Encode(username);
    Utf8.EncodedLengthBounds(senderId);
    Utf8.EncodedLengthBounds(username);
    assert W.Written(w) == original;
    RelayRun(w, original, a, b);
    BytesWritesAreRun(w, a, b);
    var w1 :- W.WriteString(w, senderId);
    var w2 :- W.WriteString(w1, username);
    Ok(Slice(w2.buffer, 0, w2.offset))
  }

  /** Two strings written after `original`: they fit iff both lengths do and there is room, and they follow it. */
  lemma RelayRun(w: W.Writer, original: Bytes, a: Bytes, b: Bytes)
    requires W.Written(w) == original && w.offset == |original|
    ensures var r := W.Run(w, [W.Str(a), W.Str(b)]);
            && (r.Ok? <==> |a| <= MAX_U32 && |b| <= MAX_U32 && |original| + 8 + |a| + |b| <= |w.buffer|)
            && (r.Ok? ==> |a| <= MAX_U32 && |b| <= MAX_U32 && W.Written(r.value) == original + Lp(a) + Lp(b))
  {
    var ops := [W.Str(a), W.Str(b)];
    M.Unroll2(ops[0], ops[1]);
    W.RunAppends(w, ops);
    if W.Run(w, ops).Ok? {
      ConcatAssoc(original, Lp(a), Lp(b));
    }
  }

  /** Two `writeBytes` calls are the run of the two writes. */
  lemma BytesWritesAreRun(w: W.Writer, a: Bytes, b: Bytes)
    ensures var r := W.Run(w, [W.Str(a), W.Str(b)]);
            var first := W.WriteBytes(w, a);
            && (first.Err? ==> r == Err(first.error))
            && (first.Ok? ==> r == W.WriteBytes(first.value, b))
  {
    var ops := [W.Str(a), W.Str(b)];
    match W.WriteBytes(w, a) {
      case Err(e) =>
        assert W.Apply(w, ops[0]) == Err(e);
      case Ok(w1) =>
        assert W.Run(w, ops) == W.Run(w1, ops[1..]);
        assert ops[1..] == [W.Str(b)];
        match W.WriteBytes(w1, b) {
          case Err(e) =>
          case Ok(w2) =>
            assert W.Run(w1, [W.Str(b)]) == W.Run(w2, []);
        }
    }
  }

  /** `readUint8` of a frame's first byte. */
  function Tag(frame: Bytes): (tag: int)
    requires |frame| > 0
    ensures 0 <= tag < 256
    ensures R.ReadUint8(R.New(frame)) == Ok(R.Read(tag, R.Reader(frame, 1, 0)))
  {
    frame[0]
  }

  /** The tags with a handler; the frame is relayed for all of them but `changeTool`. */
  predicate Relays(tag: int)
    ensures Relays(tag) <==> tag in {M.TEXT, M.WRITE_FILE, M.PALETTE_IMAGE_UPLOAD, M.CURSOR_UPDATE}
  {
    M.TEXT <= tag <= M.CURSOR_UPDATE
  }

  /**
   `onMessage`: an empty frame or a tag without a handler (0, 6 and above)
   does nothing. `changeTool` is decoded in full and updates the sender's
   tool and the directory; it is never relayed. The other four kinds are
   relayed, unchecked, to every other connection. Any error along the way is
   swallowed: the room is left as it was and nothing is sent.
   */
  function OnMessage(hub: Hub, sender: ConnId, frame: Bytes, decode: Text -> string): (r: Outcome)
    requires sender in hub.conns
    ensures r.hub.id == hub.id && r.hub.conns.Keys == hub.conns.Keys
    ensures forall c | c in hub.conns && c != sender :: r.hub.conns[c] == hub.conns[c]
    ensures |frame| == 0 || !(M.CHANGE_TOOL <= Tag(frame) <= M.CURSOR_UPDATE) ==> r == Outcome(hub, [])
    ensures hub.conns[sender].None? ==> r == Outcome(hub, [])
    ensures |frame| > 0 && Tag(frame) == M.CHANGE_TOOL ==>
              (forall e | e in r.effects :: !e.Broadcast?)
              && (match M.DecodeClient(frame)
                  case Err(_) => r == Outcome(hub, [])
                  case Ok(m) =>
                    hub.conns[sender].Some? ==>
                      var st := hub.conns[sender].value.(currentTool := decode(m.toolName));
                      && r.hub.conns[sender] == Some(st)
                      && r.effects == [Notify(UpdateBody(ChangeToolAction, hub.id, |hub.conns|, st.username, st.currentTool))])
    ensures |frame| > 0 && Relays(Tag(frame)) ==>
              && r.hub == hub
              && (hub.conns[sender].Some? ==>
                    match RelayFrame(frame, sender, hub.conns[sender].value.username)
                    case Err(_) => r.effects == []
                    case Ok(f) => r.effects == [Broadcast(f, hub.conns.Keys - {sender})])
  {
    if |frame| == 0 || hub.conns[sender].None? then Outcome(hub, [])
    else
      var st := hub.conns[sender].value;
      var tag := Tag(frame);
      if tag == M.CHANGE_TOOL then
        match M.DecodeClient(frame)
        case Err(_) => Outcome(hub, [])
        case Ok(m) =>
          var st' := st.(currentTool := decode(m.toolName));
          var hub' := hub.(conns := hub.conns[sender := Some(st')]);
          Outcome(hub', [Notify(Update(hub', ChangeToolAction, Some(st')))])
      else if Relays(tag) then
        match RelayFrame(frame, sender, st.username)
        case Err(_) => Outcome(hub, [])
        case Ok(f) => Outcome(hub, [Broadcast(f, hub.conns.Keys - {sender})])
      else
        Outcome(hub, [])
  }

  /**
   A relayed message reaches every other connection as a server frame that
   decodes to the message with the sender's id and username, provided both
   are ASCII.
   */
  lemma RelayDelivers(hub: Hub, sender: ConnId, m: ClientMessage, decode: Text -> string)
    requires sender in hub.conns && hub.conns[sender].Some?
    requires !m.ClientChangeTool? && M.ClientFits(m)
    requires var u := hub.conns[sender].value.username;
             Utf8.IsAscii(sender) && Utf8.IsAscii(u) && |sender| <= MAX_U32 && |u| <= MAX_U32
    ensures var r := OnMessage(hub, sender, M.ClientFrame(m), decode);
            var id, u := Utf8.Encode(sender), Utf8.Encode(hub.conns[sender].value.username);
            && r.hub == hub
            && |r.effects| == 1 && r.effects[0].Broadcast?
            && r.effects[0].recipients == hub.conns.Keys - {sender}
            && M.DecodeServer(r.effects[0].frame) == Ok(M.WithSender(M.Normalize(m), id, u))
  {
    var username := hub.conns[sender].value.username;
    var id, u := Utf8.Encode(sender), Utf8.Encode(username);
    Utf8.EncodedLengthBounds(sender);
    Utf8.EncodedLengthBounds(username);
    var sm := M.WithSender(m, id, u);
    assert M.ClientFrame(m)[0] == M.ClientTag(m);
    var f := RelayFrame(M.ClientFrame(m), sender, username).value;
    assert f == M.ServerFrame(sm);
    M.ServerRoundTrip(sm, []);
    assert M.ServerFrame(sm) + [] == M.ServerFrame(sm);
  }

  /** The relay does not look past the tag: a bare `text` tag, which no decoder accepts, is still relayed. */
  lemma RelayIsUnchecked(hub: Hub, sender: ConnId, decode: Text -> string)
    requires sender in hub.conns && hub.conns[sender].Some?
    requires var u := hub.conns[sender].value.username;
             Utf8.IsAscii(sender) && Utf8.IsAscii(u) && |sender| <= MAX_U32 && |u| <= MAX_U32
    ensures M.DecodeClient([M.TEXT]).Err?
    ensures OnMessage(hub, sender, [M.TEXT], decode).effects[0].Broadcast?
  {
    assert Tag([M.TEXT]) == M.TEXT;
  }

  /** A sender whose id or username is not ASCII gets nothing relayed: the relay buffer is too short. */
  lemma NonAsciiSenderNotRelayed(hub: Hub, sender: ConnId, frame: Bytes, decode: Text -> string)
    requires sender in hub.conns && hub.conns[sender].Some?
    requires |frame| > 0 && Relays(Tag(frame))
    requires !Utf8.IsAscii(sender) || !Utf8.IsAscii(hub.conns[sender].value.username)
    ensures OnMessage(hub, sender, frame, decode) == Outcome(hub, [])
  {
  }

  // ---------------------------------------------------------------------
  // The room and the directory together

  /** The directory request a notification body validates to (`toolName` is dropped for join and leave). */
  function AsRequest(body: UpdateBody): (req: SessionRequest)
    ensures !req.DeleteRequest?
    ensures req.id == body.id && req.username == body.username && req.connections == body.connections
    ensures req.ChangeToolRequest? <==> body.action == ChangeToolAction
    ensures req.ChangeToolRequest? ==> req.toolName == body.toolName
  {
    match body.action
    case JoinAction => JoinRequest(body.id, body.connections, body.username)
    case LeaveAction => LeaveRequest(body.id, body.connections, body.username)
    case ChangeToolAction => ChangeToolRequest(body.toolName, body.id, body.connections, body.username)
  }

  /** An admitted connection appears in the directory first in its room's user list, present. */
  lemma ConnectJoinsDirectory(hub: Hub, conn: ConnId, username: string, currentTool: Option<string>,
                              store: Sessions.Store, now: string)
    requires username != ""
    ensures var r := OnConnect(hub, conn, Some(username), currentTool);
            && |r.effects| == 1 && r.effects[0].Notify?
            && var store' := Sessions.UpdateSessionInfo(store, AsRequest(r.effects[0].body), now);
               && hub.id in store'
               && |store'[hub.id].users| >= 1
               && store'[hub.id].users[0] == Sessions.FreshEntry(username, now)
               && store'[hub.id].connections == |hub.conns.Keys + {conn}|
  {
    var r := OnConnect(hub, conn, Some(username), currentTool);
    Sessions.JoinPutsUserFirst(store, AsRequest(r.effects[0].body), now);
    assert r.hub.conns.Keys == hub.conns.Keys + {conn};
  }

  /**
   A tool change in a room shows, in the directory, on the entry of the
   sender's user with the decoded tool name.
   */
  lemma ChangeToolReachesDirectory(hub: Hub, sender: ConnId, toolName: Text, decode: Text -> string,
                                   store: Sessions.Store, now: string, i: nat)
    requires sender in hub.conns && hub.conns[sender].Some?
    requires |toolName| <= MAX_U32
    requires hub.id in store && i < |store[hub.id].users|
    requires store[hub.id].users[i].username == hub.conns[sender].value.username != ""
    ensures var r := OnMessage(hub, sender, M.ClientFrame(ClientChangeTool(toolName)), decode);
            && |r.effects| == 1 && r.effects[0].Notify?
            && var store' := Sessions.UpdateSessionInfo(store, AsRequest(r.effects[0].body), now);
               store'[hub.id].users[i].currentTool == Some(decode(toolName))
  {
    var m := ClientChangeTool(toolName);
    M.EncodeDecodeClient(m);
    M.ClientRoundTrip(m, []);
    assert M.ClientFrame(m) + [] == M.ClientFrame(m);
    assert M.ClientFrame(m)[0] == M.CHANGE_TOOL;
    var r := OnMessage(hub, sender, M.ClientFrame(m), decode);
    Sessions.ChangeToolIsVisible(store, AsRequest(r.effects[0].body), now, i);
  }

  // ---------------------------------------------------------------------
  // The room's own records

  datatype HubResponse = HubNotFound | Found(info: SessionInfo)

  /** `onRequest` of a room: a GET returns the record stored under the room's id; anything else is not found. */
  function OnRequest(hub: Hub, storage: map<string, SessionInfo>, verb: string): (r: HubResponse)
    ensures r.Found? <==> verb == "GET" && hub.id in storage
    ensures r.Found? ==> r.info == storage[hub.id]
  {
    if verb == "GET" && hub.id in storage then Found(storage[hub.id]) else HubNotFound
  }
}
