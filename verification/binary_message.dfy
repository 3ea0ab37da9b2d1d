/**
 The tagged binary frames exchanged over a collaboration room: a one-byte
 kind tag followed by the kind's fields in order, each text field as a u32
 length and its UTF-8 bytes, each coordinate as four float bytes.
 */
module BinaryMessage {
  import opened Results
  import opened Bytes
  import opened Schemas
  import W = BinaryWriter
  import R = BinaryReader

  // MESSAGE_TYPES
  const CHANGE_TOOL: int := 1
  const TEXT: int := 2
  const WRITE_FILE: int := 3
  const PALETTE_IMAGE_UPLOAD: int := 4
  const CURSOR_UPDATE: int := 5
  const SESSION_UPDATE: int := 6

  function ClientTag(m: ClientMessage): int {
    match m
    case ClientChangeTool(_) => CHANGE_TOOL
    case ClientText(_) => TEXT
    case ClientWriteFile(_, _) => WRITE_FILE
    case ClientPaletteImageUpload(_, _) => PALETTE_IMAGE_UPLOAD
    case ClientCursorUpdate(_, _, _) => CURSOR_UPDATE
  }

  /** `message.tool ?? ""` */
  function ToolText(tool: Option<Text>): Text {
    tool.GetOr([])
  }

  /** `reader.readString() || undefined` */
  function ToolOf(s: Text): (tool: Option<Text>)
    ensures tool != Some([])
    ensures ToolText(tool) == s
  {
    if |s| == 0 then None else Some(s)
  }

  /** Every text field is short enough for its u32 length prefix. */
  predicate ClientFits(m: ClientMessage) {
    match m
    case ClientChangeTool(t) => |t| <= MAX_U32
    case ClientText(t) => |t| <= MAX_U32
    case ClientWriteFile(p, c) => |p| <= MAX_U32 && |c| <= MAX_U32
    case ClientPaletteImageUpload(p, v) => |p| <= MAX_U32 && |v| <= MAX_U32
    case ClientCursorUpdate(tool, _, _) => |ToolText(tool)| <= MAX_U32
  }

  /** The size `encodeClientMessage` allocates before writing. */
  function RequiredSize(m: ClientMessage): nat {
    1 + match m
        case ClientChangeTool(t) => 4 + |t|
        case ClientText(t) => 4 + |t|
        case ClientWriteFile(p, c) => (4 + |p|) + (4 + |c|)
        case ClientPaletteImageUpload(p, v) => (4 + |p|) + (4 + |v|)
        case ClientCursorUpdate(tool, _, _) => (4 + |ToolText(tool)|) + (4 + 4)
  }

  /** The writes `encodeClientMessage` issues, in order. */
  function ClientOps(m: ClientMessage): seq<W.Op> {
    match m
    case ClientChangeTool(t) => [W.U8(CHANGE_TOOL), W.Str(t)]
    case ClientText(t) => [W.U8(TEXT), W.Str(t)]
    case ClientWriteFile(p, c) => [W.U8(WRITE_FILE), W.Str(p), W.Str(c)]
    case ClientPaletteImageUpload(p, v) => [W.U8(PALETTE_IMAGE_UPLOAD), W.Str(p), W.Str(v)]
    case ClientCursorUpdate(tool, x, y) => [W.U8(CURSOR_UPDATE), W.Str(ToolText(tool)), W.F32(x), W.F32(y)]
  }

  /** The reference layout of a client frame. */
  function ClientFrame(m: ClientMessage): Bytes
    requires ClientFits(m)
  {
    match m
    case ClientChangeTool(t) => [CHANGE_TOOL] + Lp(t)
    case ClientText(t) => [TEXT] + Lp(t)
    case ClientWriteFile(p, c) => [WRITE_FILE] + Lp(p) + Lp(c)
    case ClientPaletteImageUpload(p, v) => [PALETTE_IMAGE_UPLOAD] + Lp(p) + Lp(v)
    case ClientCursorUpdate(tool, x, y) => [CURSOR_UPDATE] + Lp(ToolText(tool)) + x + y
  }

  /** Size, range and layout facts of a two-write list. */
  lemma Unroll2(a: W.Op, b: W.Op)
    ensures W.TotalSize([a, b]) == W.Size(a) + W.Size(b)
    ensures W.AllFit([a, b]) <==> W.Fits(a) && W.Fits(b)
    ensures W.AllFit([a, b]) ==> W.Layout([a, b]) == W.Encoding(a) + W.Encoding(b)
  {
    assert [b] + [] == [b] && [a] + [b] == [a, b];
    W.ConsFacts(b, []);
    W.ConsFacts(a, [b]);
  }

  lemma Unroll3(a: W.Op, b: W.Op, c: W.Op)
    ensures W.TotalSize([a, b, c]) == W.Size(a) + W.Size(b) + W.Size(c)
    ensures W.AllFit([a, b, c]) <==> W.Fits(a) && W.Fits(b) && W.Fits(c)
    ensures W.AllFit([a, b, c]) ==> W.Layout([a, b, c]) == W.Encoding(a) + W.Encoding(b) + W.Encoding(c)
  {
    Unroll2(b, c);
    assert [a] + [b, c] == [a, b, c];
    W.ConsFacts(a, [b, c]);
  }

  lemma Unroll4(a: W.Op, b: W.Op, c: W.Op, d: W.Op)
    ensures W.TotalSize([a, b, c, d]) == W.Size(a) + W.Size(b) + W.Size(c) + W.Size(d)
    ensures W.AllFit([a, b, c, d]) <==> W.Fits(a) && W.Fits(b) && W.Fits(c) && W.Fits(d)
    ensures W.AllFit([a, b, c, d]) ==>
              W.Layout([a, b, c, d]) == W.Encoding(a) + W.Encoding(b) + W.Encoding(c) + W.Encoding(d)
  {
    Unroll3(b, c, d);
    assert [a] + [b, c, d] == [a, b, c, d];
    W.ConsFacts(a, [b, c, d]);
  }

  lemma ClientOpsLayout(m: ClientMessage)
    ensures W.AllFit(ClientOps(m)) <==> ClientFits(m)
    ensures W.TotalSize(ClientOps(m)) == RequiredSize(m)
    ensures ClientFits(m) ==> W.Layout(ClientOps(m)) == ClientFrame(m)
  {
    match m {
      case ClientChangeTool(t) => Unroll2(W.U8(CHANGE_TOOL), W.Str(t));
      case ClientText(t) => Unroll2(W.U8(TEXT), W.Str(t));
      case ClientWriteFile(p, c) => Unroll3(W.U8(WRITE_FILE), W.Str(p), W.Str(c));
      case ClientPaletteImageUpload(p, v) => Unroll3(W.U8(PALETTE_IMAGE_UPLOAD), W.Str(p), W.Str(v));
      case ClientCursorUpdate(tool, x, y) => Unroll4(W.U8(CURSOR_UPDATE), W.Str(ToolText(tool)), W.F32(x), W.F32(y));
    }
  }

  /**
   `encodeClientMessage`: the frame is exactly the allocated size, starts with
   the kind's tag and has the reference layout; it fails only when a text
   field is too long for its u32 length prefix.
   */
  function EncodeClient(m: ClientMessage): (r: Result<Bytes>)
    ensures r.Ok? <==> ClientFits(m)
    ensures r.Err? ==> r.error == Overflow
    ensures r.Ok? ==>
              && |r.value| == RequiredSize(m)
              && r.value[0] == ClientTag(m)
              && r.value == ClientFrame(m)
  {
    var w0 := W.New(RequiredSize(m));
    ClientOpsLayout(m);
    W.RunAppends(w0, ClientOps(m));
    W.RunRejects(w0, ClientOps(m));
    var w :- W.Run(w0, ClientOps(m));
    Ok(Slice(w.buffer, 0, w.offset))
  }

  /** The fields of a `changeTool` or `text` frame: one string. */
  function ReadOneField(tag: int, rd: R.Reader): (r: Result<R.Read<ClientMessage>>)
    requires tag == CHANGE_TOOL || tag == TEXT
    ensures r.Err? ==> r.error == Truncated
    ensures r.Ok? ==> ClientTag(r.value.value) == tag
  {
    var field :- R.ReadString(rd);
    Ok(R.Read(if tag == CHANGE_TOOL then ClientChangeTool(field.value) else ClientText(field.value), field.next))
  }

  /** The fields of a `writeFile` or `paletteImageUpload` frame: the path, then the content or version id. */
  function ReadTwoField(tag: int, rd: R.Reader): (r: Result<R.Read<ClientMessage>>)
    requires tag == WRITE_FILE || tag == PALETTE_IMAGE_UPLOAD
    ensures r.Err? ==> r.error == Truncated
    ensures r.Ok? ==> ClientTag(r.value.value) == tag
  {
    var path :- R.ReadString(rd);
    var second :- R.ReadString(path.next);
    Ok(R.Read(
      if tag == WRITE_FILE then ClientWriteFile(path.value, second.value)
      else ClientPaletteImageUpload(path.value, second.value),
      second.next))
  }

  /** The fields of a `cursorUpdate` frame: the tool (empty meaning none), then x and y. */
  function ReadCursorFields(rd: R.Reader): (r: Result<R.Read<ClientMessage>>)
    ensures r.Err? ==> r.error == Truncated
    ensures r.Ok? ==> r.value.value.ClientCursorUpdate? && r.value.value.tool != Some([])
  {
    var tool :- R.ReadString(rd);
    var x :- R.ReadFloat(tool.next);
    var y :- R.ReadFloat(x.next);
    Ok(R.Read(ClientCursorUpdate(ToolOf(tool.value), x.value, y.value), y.next))
  }

  /** The fields that follow the tag of a frame of kind `tag`, read in order. */
  function ReadClientFields(tag: int, rd: R.Reader): (r: Result<R.Read<ClientMessage>>)
    requires CHANGE_TOOL <= tag <= CURSOR_UPDATE
    ensures r.Err? ==> r.error == Truncated
    ensures r.Ok? ==> ClientTag(r.value.value) == tag
    ensures r.Ok? && r.value.value.ClientCursorUpdate? ==> r.value.value.tool != Some([])
  {
    if tag == CHANGE_TOOL || tag == TEXT then ReadOneField(tag, rd)
    else if tag == WRITE_FILE || tag == PALETTE_IMAGE_UPLOAD then ReadTwoField(tag, rd)
    else ReadCursorFields(rd)
  }

  /** `decodeClientMessage`: reads the tag, then the kind's fields in order; trailing bytes are ignored. */
  function DecodeClient(buffer: Bytes): (r: Result<ClientMessage>)
    ensures |buffer| == 0 ==> r == Err(Truncated)
    ensures |buffer| > 0 && !(CHANGE_TOOL <= buffer[0] <= CURSOR_UPDATE) ==> r == Err(UnknownKind(buffer[0]))
    ensures r.Ok? ==> |buffer| > 0 && ClientTag(r.value) == buffer[0]
    ensures r.Ok? && r.value.ClientCursorUpdate? ==> r.value.tool != Some([])
  {
    var tag :- R.ReadUint8(R.New(buffer));
    if CHANGE_TOOL <= tag.value <= CURSOR_UPDATE then
      var m :- ReadClientFields(tag.value, tag.next);
      Ok(m.value)
    else
      Err(UnknownKind(tag.value))
  }

  /** What a client message decodes back to: an empty cursor tool comes back absent. */
  function Normalize(m: ClientMessage): ClientMessage {
    match m
    case ClientCursorUpdate(tool, x, y) => ClientCursorUpdate(ToolOf(ToolText(tool)), x, y)
    case _ => m
  }

  lemma NormalizeOnlyDropsEmptyTool(m: ClientMessage)
    ensures Normalize(m) == m <==> !(m.ClientCursorUpdate? && m.tool == Some([]))
    ensures m.ClientCursorUpdate? && m.tool == Some([]) ==> Normalize(m) == m.(tool := None)
  {
  }

  /** A length-prefixed field sitting between `pre` and `post` reads back as its bytes. */
  lemma ReadFieldAt(buffer: Bytes, pre: Bytes, data: Bytes, post: Bytes)
    requires |data| <= MAX_U32
    requires buffer == pre + Lp(data) + post
    ensures R.ReadString(R.Reader(buffer, |pre|, 0)) == Ok(R.Read(data, R.Reader(buffer, |pre| + 4 + |data|, 0)))
  {
    SliceOfConcat(pre, Lp(data), post);
    R.ReadLp(buffer, |pre|, data);
  }

  /** Float bytes sitting between `pre` and `post` read back as themselves. */
  lemma ReadFloatAt(buffer: Bytes, pre: Bytes, bits: Float32, post: Bytes)
    requires buffer == pre + bits + post
    ensures R.ReadFloat(R.Reader(buffer, |pre|, 0)) == Ok(R.Read(bits, R.Reader(buffer, |pre| + 4, 0)))
  {
    SliceOfConcat(pre, bits, post);
  }

  lemma OneFieldRoundTrip(m: ClientMessage, buffer: Bytes, tail: Bytes)
    requires m.ClientChangeTool? || m.ClientText?
    requires ClientFits(m)
    requires buffer == ClientFrame(m) + tail
    ensures ReadClientFields(ClientTag(m), R.Reader(buffer, 1, 0))
            == Ok(R.Read(m, R.Reader(buffer, |ClientFrame(m)|, 0)))
  {
    var t := if m.ClientChangeTool? then m.toolName else m.text;
    ReadFieldAt(buffer, [ClientTag(m)], t, tail);
  }

  lemma TwoFieldRoundTrip(m: ClientMessage, buffer: Bytes, tail: Bytes)
    requires m.ClientWriteFile? || m.ClientPaletteImageUpload?
    requires ClientFits(m)
    requires buffer == ClientFrame(m) + tail
    ensures ReadClientFields(ClientTag(m), R.Reader(buffer, 1, 0))
            == Ok(R.Read(m, R.Reader(buffer, |ClientFrame(m)|, 0)))
  {
    var b := if m.ClientWriteFile? then m.content else m.versionId;
    assert ClientFrame(m) == [ClientTag(m)] + Lp(m.path) + Lp(b);
    ReadTwoFields(buffer, [ClientTag(m)], m.path, b, tail);
    assert ReadClientFields(ClientTag(m), R.Reader(buffer, 1, 0)) == ReadTwoField(ClientTag(m), R.Reader(buffer, 1, 0));
  }

  /** Two length-prefixed fields in a row read back one after the other. */
  lemma ReadTwoFields(buffer: Bytes, pre: Bytes, a: Text, b: Text, post: Bytes)
    requires |a| <= MAX_U32 && |b| <= MAX_U32
    requires buffer == pre + Lp(a) + Lp(b) + post
    ensures R.ReadString(R.Reader(buffer, |pre|, 0)) == Ok(R.Read(a, R.Reader(buffer, |pre| + 4 + |a|, 0)))
    ensures R.ReadString(R.Reader(buffer, |pre| + 4 + |a|, 0))
            == Ok(R.Read(b, R.Reader(buffer, |pre| + 8 + |a| + |b|, 0)))
  {
    assert buffer == pre + Lp(a) + (Lp(b) + post);
    ReadFieldAt(buffer, pre, a, Lp(b) + post);
    assert buffer == (pre + Lp(a)) + Lp(b) + post;
    ReadFieldAt(buffer, pre + Lp(a), b, post);
  }

  /** A cursor tool field and two floats in a row read back one after the other. */
  lemma ReadCursorParts(buffer: Bytes, t: Text, x: Float32, y: Float32, tail: Bytes)
    requires |t| <= MAX_U32
    requires buffer == [CURSOR_UPDATE] + Lp(t) + x + y + tail
    ensures R.ReadString(R.Reader(buffer, 1, 0)) == Ok(R.Read(t, R.Reader(buffer, 5 + |t|, 0)))
    ensures R.ReadFloat(R.Reader(buffer, 5 + |t|, 0)) == Ok(R.Read(x, R.Reader(buffer, 9 + |t|, 0)))
    ensures R.ReadFloat(R.Reader(buffer, 9 + |t|, 0)) == Ok(R.Read(y, R.Reader(buffer, 13 + |t|, 0)))
  {
    var pre: Bytes := [CURSOR_UPDATE];
    var yt: Bytes := y + tail;
    var xyt: Bytes := x + yt;
    assert buffer == pre + Lp(t) + xyt;
    ReadFieldAt(buffer, pre, t, xyt);
    assert buffer == pre + Lp(t) + x + yt;
    ReadFloatAt(buffer, pre + Lp(t), x, yt);
    ReadFloatAt(buffer, pre + Lp(t) + x, y, tail);
  }

  lemma CursorFieldsRoundTrip(m: ClientMessage, buffer: Bytes, tail: Bytes)
    requires m.ClientCursorUpdate?
    requires ClientFits(m)
    requires buffer == ClientFrame(m) + tail
    ensures ReadClientFields(ClientTag(m), R.Reader(buffer, 1, 0))
            == Ok(R.Read(Normalize(m), R.Reader(buffer, |ClientFrame(m)|, 0)))
  {
    ReadCursorParts(buffer, ToolText(m.tool), m.x, m.y, tail);
  }

  /** The fields of a client frame, followed by anything, read back as the message and stop at the frame's end. */
  lemma ClientFieldsRoundTrip(m: ClientMessage, buffer: Bytes, tail: Bytes)
    requires ClientFits(m)
    requires buffer == ClientFrame(m) + tail
    ensures ReadClientFields(ClientTag(m), R.Reader(buffer, 1, 0))
            == Ok(R.Read(Normalize(m), R.Reader(buffer, |ClientFrame(m)|, 0)))
  {
    if m.ClientChangeTool? || m.ClientText? {
      OneFieldRoundTrip(m, buffer, tail);
    } else if m.ClientWriteFile? || m.ClientPaletteImageUpload? {
      TwoFieldRoundTrip(m, buffer, tail);
    } else {
      CursorFieldsRoundTrip(m, buffer, tail);
    }
  }

  /**
   Decoding a client frame gives the message back, whatever follows the frame
   in the buffer; only an empty cursor tool comes back absent.
   */
  lemma ClientRoundTrip(m: ClientMessage, tail: Bytes)
    requires ClientFits(m)
    ensures DecodeClient(ClientFrame(m) + tail) == Ok(Normalize(m))
  {
    var buffer := ClientFrame(m) + tail;
    assert buffer[0] == ClientTag(m);
    ClientFieldsRoundTrip(m, buffer, tail);
  }

  /** `decodeClientMessage(encodeClientMessage(m))` is `m`, up to an empty cursor tool. */
  lemma EncodeDecodeClient(m: ClientMessage)
    requires ClientFits(m)
    ensures EncodeClient(m).Ok?
    ensures DecodeClient(EncodeClient(m).value) == Ok(Normalize(m))
    ensures !(m.ClientCursorUpdate? && m.tool == Some([])) ==> DecodeClient(EncodeClient(m).value) == Ok(m)
  {
    ClientRoundTrip(m, []);
    assert ClientFrame(m) + [] == ClientFrame(m);
    NormalizeOnlyDropsEmptyTool(m);
  }

  // ---------------------------------------------------------------------
  // Server frames

  /** The kinds a room relays, with the sender's id and username appended. */
  predicate Relayed(sm: ServerMessage) {
    !sm.ServerSessionUpdate?
  }

  /** The client message a relayed server message carries. */
  function ClientPart(sm: ServerMessage): ClientMessage
    requires Relayed(sm)
  {
    match sm
    case ServerText(t, _, _) => ClientText(t)
    case ServerWriteFile(p, c, _, _) => ClientWriteFile(p, c)
    case ServerPaletteImageUpload(p, v, _, _) => ClientPaletteImageUpload(p, v)
    case ServerCursorUpdate(tool, x, y, _, _) => ClientCursorUpdate(tool, x, y)
  }

  /** The server message that relays client message `m` from `clientId` / `username`. */
  function WithSender(m: ClientMessage, clientId: Text, username: Text): (sm: ServerMessage)
    requires !m.ClientChangeTool?
    ensures Relayed(sm) && ClientPart(sm) == m
    ensures sm.clientId == clientId && sm.username == username
  {
    match m
    case ClientText(t) => ServerText(t, clientId, username)
    case ClientWriteFile(p, c) => ServerWriteFile(p, c, clientId, username)
    case ClientPaletteImageUpload(p, v) => ServerPaletteImageUpload(p, v, clientId, username)
    case ClientCursorUpdate(tool, x, y) => ServerCursorUpdate(tool, x, y, clientId, username)
  }

  predicate ServerFits(sm: ServerMessage) {
    match sm
    case ServerSessionUpdate(_) => true
    case _ => ClientFits(ClientPart(sm)) && |sm.clientId| <= MAX_U32 && |sm.username| <= MAX_U32
  }

  /** The size `encodeServerMessage` allocates before writing. */
  function ServerRequiredSize(sm: ServerMessage): nat {
    1 + match sm
        case ServerText(t, c, u) => (4 + |t|) + (4 + |c|) + (4 + |u|)
        case ServerWriteFile(p, ct, c, u) => (4 + |p|) + (4 + |ct|) + (4 + |c|) + (4 + |u|)
        case ServerPaletteImageUpload(p, v, c, u) => (4 + |p|) + (4 + |v|) + (4 + |c|) + (4 + |u|)
        case ServerCursorUpdate(tool, _, _, c, u) => (4 + |ToolText(tool)|) + (4 + 4) + (4 + |c|) + (4 + |u|)
        case ServerSessionUpdate(_) => 0
  }

  /** The writes `encodeServerMessage` issues, in order; none for `sessionUpdate`. */
  function ServerOps(sm: ServerMessage): seq<W.Op> {
    match sm
    case ServerText(t, c, u) => [W.U8(TEXT), W.Str(t), W.Str(c), W.Str(u)]
    case ServerWriteFile(p, ct, c, u) => [W.U8(WRITE_FILE), W.Str(p), W.Str(ct), W.Str(c), W.Str(u)]
    case ServerPaletteImageUpload(p, v, c, u) => [W.U8(PALETTE_IMAGE_UPLOAD), W.Str(p), W.Str(v), W.Str(c), W.Str(u)]
    case ServerCursorUpdate(tool, x, y, c, u) =>
      [W.U8(CURSOR_UPDATE), W.Str(ToolText(tool)), W.F32(x), W.F32(y), W.Str(c), W.Str(u)]
    case ServerSessionUpdate(_) => []
  }

  /**
   The reference layout of a relayed server frame: the client frame of what it
   relays, then the sender's id and username as length-prefixed fields.
   */
  function ServerFrame(sm: ServerMessage): Bytes
    requires Relayed(sm) && ServerFits(sm)
  {
    ClientFrame(ClientPart(sm)) + Lp(sm.clientId) + Lp(sm.username)
  }

  /** The server writes are the client writes followed by two string writes. */
  lemma ServerOpsExtendClientOps(sm: ServerMessage)
    requires Relayed(sm)
    ensures ServerOps(sm) == ClientOps(ClientPart(sm)) + [W.Str(sm.clientId), W.Str(sm.username)]
  {
  }

  lemma ServerOpsLayout(sm: ServerMessage)
    ensures W.AllFit(ServerOps(sm)) <==> ServerFits(sm)
    ensures Relayed(sm) ==> W.TotalSize(ServerOps(sm)) == ServerRequiredSize(sm)
    ensures Relayed(sm) && ServerFits(sm) ==> W.Layout(ServerOps(sm)) == ServerFrame(sm)
  {
    if Relayed(sm) {
      var c := ClientPart(sm);
      var extra := [W.Str(sm.clientId), W.Str(sm.username)];
      ServerOpsExtendClientOps(sm);
      ClientOpsLayout(c);
      Unroll2(extra[0], extra[1]);
      W.TotalSizeAppend(ClientOps(c), extra);
      W.AllFitAppend(ClientOps(c), extra);
      assert ServerRequiredSize(sm) == RequiredSize(c) + (4 + |sm.clientId|) + (4 + |sm.username|);
      if ServerFits(sm) {
        W.LayoutAppend(ClientOps(c), extra);
        var front, id, name := ClientFrame(c), Lp(sm.clientId), Lp(sm.username);
        assert W.Layout(extra) == id + name;
        ConcatAssoc(front, id, name);
      }
    }
  }

  /**
   `encodeServerMessage`: a relayed kind is laid out exactly in the allocated
   size; `sessionUpdate` matches no case and yields an empty array.
   */
  function EncodeServer(sm: ServerMessage): (r: Result<Bytes>)
    ensures r.Ok? <==> ServerFits(sm)
    ensures r.Err? ==> r.error == Overflow
    ensures sm.ServerSessionUpdate? ==> r == Ok([])
    ensures r.Ok? && Relayed(sm) ==>
              && |r.value| == ServerRequiredSize(sm)
              && r.value == ServerFrame(sm)
  {
    var w0 := W.New(ServerRequiredSize(sm));
    ServerOpsLayout(sm);
    W.RunAppends(w0, ServerOps(sm));
    W.RunRejects(w0, ServerOps(sm));
    var w :- W.Run(w0, ServerOps(sm));
    Ok(Slice(w.buffer, 0, w.offset))
  }

  /** The two strings a relayed frame carries after the client fields: clientId, then username. */
  function ReadSender(rd: R.Reader): Result<R.Read<(Text, Text)>> {
    var clientId :- R.ReadString(rd);
    var username :- R.ReadString(clientId.next);
    Ok(R.Read((clientId.value, username.value), username.next))
  }

  /**
   `decodeServerMessage`: only the relayed kinds 2 to 5 are accepted; their
   client fields are followed by the sender's id and username.
   */
  function DecodeServer(buffer: Bytes): (r: Result<ServerMessage>)
    ensures |buffer| == 0 ==> r == Err(Truncated)
    ensures |buffer| > 0 && !(TEXT <= buffer[0] <= CURSOR_UPDATE) ==> r == Err(UnknownKind(buffer[0]))
    ensures r.Ok? ==> |buffer| > 0 && Relayed(r.value) && ClientTag(ClientPart(r.value)) == buffer[0]
    ensures r.Ok? && r.value.ServerCursorUpdate? ==> r.value.tool != Some([])
  {
    var tag :- R.ReadUint8(R.New(buffer));
    if TEXT <= tag.value <= CURSOR_UPDATE then
      var m :- ReadClientFields(tag.value, tag.next);
      var sender :- ReadSender(m.next);
      Ok(WithSender(m.value, sender.value.0, sender.value.1))
    else
      Err(UnknownKind(tag.value))
  }

  /** The sender fields sitting between `pre` and `post` read back as the pair. */
  lemma ReadSenderAt(buffer: Bytes, pre: Bytes, clientId: Text, username: Text, post: Bytes)
    requires |clientId| <= MAX_U32 && |username| <= MAX_U32
    requires buffer == pre + Lp(clientId) + Lp(username) + post
    ensures ReadSender(R.Reader(buffer, |pre|, 0))
            == Ok(R.Read((clientId, username), R.Reader(buffer, |pre| + 8 + |clientId| + |username|, 0)))
  {
    ReadTwoFields(buffer, pre, clientId, username, post);
  }

  /**
   Decoding a relayed frame gives the message back, whatever follows it; only
   an empty cursor tool comes back absent.
   */
  lemma ServerRoundTrip(sm: ServerMessage, tail: Bytes)
    requires Relayed(sm) && ServerFits(sm)
    ensures DecodeServer(ServerFrame(sm) + tail)
            == Ok(WithSender(Normalize(ClientPart(sm)), sm.clientId, sm.username))
  {
    var c := ClientPart(sm);
    var buffer := ServerFrame(sm) + tail;
    ServerFrameSplit(sm, tail);
    assert buffer[0] == ClientTag(c);
    ClientFieldsRoundTrip(c, buffer, Lp(sm.clientId) + Lp(sm.username) + tail);
    ReadSenderAt(buffer, ClientFrame(c), sm.clientId, sm.username, tail);
  }

  lemma ServerFrameSplit(sm: ServerMessage, tail: Bytes)
    requires Relayed(sm) && ServerFits(sm)
    ensures var c := ClientPart(sm);
            && ServerFrame(sm) + tail == ClientFrame(c) + (Lp(sm.clientId) + Lp(sm.username) + tail)
            && ServerFrame(sm) + tail == ClientFrame(c) + Lp(sm.clientId) + Lp(sm.username) + tail
  {
  }

  /** `decodeServerMessage(encodeServerMessage(sm))` is `sm` for every relayed kind, up to an empty cursor tool. */
  lemma EncodeDecodeServer(sm: ServerMessage)
    requires Relayed(sm) && ServerFits(sm)
    ensures EncodeServer(sm).Ok?
    ensures DecodeServer(EncodeServer(sm).value) == Ok(WithSender(Normalize(ClientPart(sm)), sm.clientId, sm.username))
    ensures !(sm.ServerCursorUpdate? && sm.tool == Some([])) ==> DecodeServer(EncodeServer(sm).value) == Ok(sm)
  {
    ServerRoundTrip(sm, []);
    assert ServerFrame(sm) + [] == ServerFrame(sm);
    NormalizeOnlyDropsEmptyTool(ClientPart(sm));
  }

  /** A client-side decoder reading a relayed frame gets the relayed message and ignores the sender. */
  lemma DecodeClientOfServerFrame(sm: ServerMessage)
    requires Relayed(sm) && ServerFits(sm)
    ensures DecodeClient(ServerFrame(sm)) == Ok(Normalize(ClientPart(sm)))
  {
    var c := ClientPart(sm);
    assert ServerFrame(sm) == ClientFrame(c) + (Lp(sm.clientId) + Lp(sm.username));
    ClientRoundTrip(c, Lp(sm.clientId) + Lp(sm.username));
  }

  // ---------------------------------------------------------------------
  // Truncated frames

  /**
   A length-prefixed field whose body is cut after `k` bytes: `readString`
   does not notice, returns the `k` bytes and puts the cursor where the whole
   body would have ended.
   */
  lemma ReadCutFieldAt(buffer: Bytes, pre: Bytes, data: Bytes, k: nat)
    requires |data| <= MAX_U32 && k <= |data|
    requires buffer == pre + Lp(data)[..4 + k]
    ensures R.ReadString(R.Reader(buffer, |pre|, 0))
            == Ok(R.Read(data[..k], R.Reader(buffer, |pre| + 4 + |data|, 0)))
  {
    var head, body := LE(|data|, 4), data[..k];
    CutLpParts(data, k);
    SliceOfConcat(pre, head, body);
    R.ReadLpCut(buffer, |pre|, |data|, body);
  }

  /** A length-prefixed field cut after `k` body bytes is the whole prefix and the first `k` bytes. */
  lemma CutLpParts(data: Bytes, k: nat)
    requires |data| <= MAX_U32 && k <= |data|
    ensures Lp(data)[..4 + k] == LE(|data|, 4) + data[..k]
  {
    var head := LE(|data|, 4);
    assert Lp(data) == head + data;
    assert (head + data)[..4 + k] == head + data[..k];
  }

  /** A `text` frame cut inside its text decodes, without error, to the text's first bytes. */
  lemma TextFrameCutInBody(t: Text, n: nat)
    requires |t| <= MAX_U32
    requires 5 <= n <= |ClientFrame(ClientText(t))|
    ensures DecodeClient(ClientFrame(ClientText(t))[..n]) == Ok(ClientText(t[..n - 5]))
  {
    var frame := ClientFrame(ClientText(t));
    var buffer := frame[..n];
    assert buffer == [TEXT] + Lp(t)[..4 + (n - 5)];
    ReadCutFieldAt(buffer, [TEXT], t, n - 5);
  }

  /**
   A relayed frame cut inside the sender's username decodes, without error,
   to the message with the username's first bytes.
   */
  lemma ServerFrameCutInUsername(sm: ServerMessage, n: nat)
    requires Relayed(sm) && ServerFits(sm)
    requires |ServerFrame(sm)| - |sm.username| <= n <= |ServerFrame(sm)|
    ensures var k := n - (|ServerFrame(sm)| - |sm.username|);
            DecodeServer(ServerFrame(sm)[..n])
            == Ok(WithSender(Normalize(ClientPart(sm)), sm.clientId, sm.username[..k]))
  {
    var c := ClientPart(sm);
    var front, id, u := ClientFrame(c), sm.clientId, sm.username;
    var k := n - (|ServerFrame(sm)| - |u|);
    var buffer := ServerFrame(sm)[..n];
    CutServerFrameShape(sm, n);
    ClientFieldsRoundTrip(c, buffer, Lp(id) + Lp(u)[..4 + k]);
    ReadSenderCut(buffer, front, id, u, k);
    DecodeServerSteps(buffer, Normalize(c), R.Reader(buffer, |front|, 0), (id, u[..k]));
  }

  /** Decoding a relayed frame is reading its tag, its client fields, then the sender. */
  lemma DecodeServerSteps(buffer: Bytes, m: ClientMessage, rd: R.Reader, sender: (Text, Text))
    requires |buffer| > 0 && buffer[0] == ClientTag(m) && !m.ClientChangeTool?
    requires ReadClientFields(ClientTag(m), R.Reader(buffer, 1, 0)) == Ok(R.Read(m, rd))
    requires ReadSender(rd).Ok? && ReadSender(rd).value.value == sender
    ensures DecodeServer(buffer) == Ok(WithSender(m, sender.0, sender.1))
  {
  }

  /** The sender fields with the username cut after `k` bytes read back as the id and the username's first bytes. */
  lemma ReadSenderCut(buffer: Bytes, pre: Bytes, clientId: Text, username: Text, k: nat)
    requires |clientId| <= MAX_U32 && |username| <= MAX_U32 && k <= |username|
    requires buffer == pre + Lp(clientId) + Lp(username)[..4 + k]
    ensures ReadSender(R.Reader(buffer, |pre|, 0)).Ok?
    ensures ReadSender(R.Reader(buffer, |pre|, 0)).value.value == (clientId, username[..k])
  {
    ReadFieldAt(buffer, pre, clientId, Lp(username)[..4 + k]);
    ReadCutFieldAt(buffer, pre + Lp(clientId), username, k);
  }

  lemma CutServerFrameShape(sm: ServerMessage, n: nat)
    requires Relayed(sm) && ServerFits(sm)
    requires |ServerFrame(sm)| - |sm.username| <= n <= |ServerFrame(sm)|
    ensures var front, id, u := ClientFrame(ClientPart(sm)), sm.clientId, sm.username;
            var k := n - (|ServerFrame(sm)| - |u|);
            var buffer := ServerFrame(sm)[..n];
            && buffer == front + Lp(id) + Lp(u)[..4 + k]
            && buffer == front + (Lp(id) + Lp(u)[..4 + k])
            && buffer[0] == ClientTag(ClientPart(sm))
  {
    var front, id, u := ClientFrame(ClientPart(sm)), sm.clientId, sm.username;
    var k := n - (|ServerFrame(sm)| - |u|);
    var cutName := Lp(u)[..4 + k];
    assert ServerFrame(sm)[..n] == front + Lp(id) + cutName;
    ConcatAssoc(front, Lp(id), cutName);
  }

  /**
   Every strict prefix of a `cursorUpdate` frame is rejected as truncated:
   the two floats after the tool are bounds-checked, and a cut tool body
   pushes the cursor past the end before them.
   */
  lemma CursorPrefixRejected(m: ClientMessage, n: nat)
    requires m.ClientCursorUpdate? && ClientFits(m)
    requires n < |ClientFrame(m)|
    ensures DecodeClient(ClientFrame(m)[..n]) == Err(Truncated)
  {
    var t := ToolText(m.tool);
    var frame := ClientFrame(m);
    var buffer := frame[..n];
    if n > 0 {
      assert buffer[0] == CURSOR_UPDATE;
      if n >= 5 {
        var head: Bytes := [CURSOR_UPDATE];
        var body: Bytes := t + m.x + m.y;
        assert frame == head + LE(|t|, 4) + body;
        SliceOfConcat(head, LE(|t|, 4), body);
        assert buffer[1..5] == frame[1..5];
        FromLEOfLE(|t|, 4);
      }
    }
  }
}
