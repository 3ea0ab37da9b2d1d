/**
 The presence directory: the singleton "sessions" room that keeps one record
 per collaboration room, keyed by room id, and rewrites it on every
 join / leave / changeTool / delete notification.

 Storage is a map from room id to record; the clock is the `now` parameter
 (an ISO-8601 timestamp string). The listing is the set of stored records:
 the order in which storage lists them is not modelled.
 */
module Sessions {
  import opened Results
  import opened Schemas

  const SINGLETON_ROOM_ID: string := "sessions"

  type Store = map<string, SessionInfo>

  // ---------------------------------------------------------------------
  // User lists

  /** The entry `join` puts at the front of the user list. */
  function FreshEntry(username: string, now: string): (e: UserEntry)
    ensures e.username == username && e.joinedAt == now
    ensures e.present && e.leftAt.None? && e.currentTool.None?
  {
    UserEntry(username, now, None, true, None)
  }

  /** No two entries share a username. */
  predicate UniqueNames(users: seq<UserEntry>) {
    forall i, j | 0 <= i < j < |users| :: users[i].username != users[j].username
  }

  function Names(users: seq<UserEntry>): (names: seq<string>)
    ensures |names| == |users|
    ensures forall i | 0 <= i < |users| :: names[i] == users[i].username
  {
    if |users| == 0 then [] else [users[0].username] + Names(users[1..])
  }

  /** `users.filter(user => user.username !== username)` */
  function WithoutUser(users: seq<UserEntry>, username: string): (r: seq<UserEntry>)
    ensures |r| <= |users|
    ensures forall e :: e in r <==> e in users && e.username != username
    ensures (forall i | 0 <= i < |users| :: users[i].username != username) ==> r == users
  {
    if |users| == 0 then []
    else if users[0].username != username then [users[0]] + WithoutUser(users[1..], username)
    else WithoutUser(users[1..], username)
  }

  /** Filtering keeps the order: it distributes over concatenation. */
  lemma {:induction false} WithoutUserDistributes(a: seq<UserEntry>, b: seq<UserEntry>, username: string)
    ensures WithoutUser(a + b, username) == WithoutUser(a, username) + WithoutUser(b, username)
  {
    if |a| == 0 {
      assert a + b == b;
    } else {
      assert (a + b)[0] == a[0];
      assert (a + b)[1..] == a[1..] + b;
      WithoutUserDistributes(a[1..], b, username);
    }
  }

  /** Filtering a list with unique names leaves unique names. */
  lemma {:induction false} WithoutUserKeepsUnique(users: seq<UserEntry>, username: string)
    requires UniqueNames(users)
    ensures UniqueNames(WithoutUser(users, username))
  {
    if |users| > 0 {
      var rest := users[1..];
      assert UniqueNames(rest) by {
        forall i, j | 0 <= i < j < |rest| ensures rest[i].username != rest[j].username {
          assert rest[i] == users[i + 1] && rest[j] == users[j + 1];
        }
      }
      WithoutUserKeepsUnique(rest, username);
      if users[0].username != username {
        var tail := WithoutUser(rest, username);
        var r := [users[0]] + tail;
        forall i, j | 0 <= i < j < |r| ensures r[i].username != r[j].username {
          if i == 0 {
            assert r[j] == tail[j - 1];
            assert tail[j - 1] in rest;
            var k :| 0 <= k < |rest| && rest[k] == tail[j - 1];
            assert users[k + 1] == rest[k];
          } else {
            assert r[i] == tail[i - 1] && r[j] == tail[j - 1];
          }
        }
      }
    }
  }

  /** `join`: a fresh entry in front of the list without the user's old entries. */
  function Joined(users: seq<UserEntry>, username: string, now: string): (r: seq<UserEntry>)
    ensures |r| >= 1 && r[0] == FreshEntry(username, now)
    ensures forall i | 1 <= i < |r| :: r[i].username != username
    ensures forall e | e in users && e.username != username :: e in r
    ensures r[1..] == WithoutUser(users, username)
  {
    var rest := WithoutUser(users, username);
    var r := [FreshEntry(username, now)] + rest;
    assert forall i | 1 <= i < |r| :: r[i] == rest[i - 1] && rest[i - 1] in rest;
    r
  }

  /** `leave`: every entry of the user is marked absent, stamped with the time; the others are kept. */
  function MarkLeft(users: seq<UserEntry>, username: string, now: string): (r: seq<UserEntry>)
    ensures |r| == |users|
    ensures forall i | 0 <= i < |users| && users[i].username == username ::
              r[i] == users[i].(present := false, leftAt := Some(now))
    ensures forall i | 0 <= i < |users| && users[i].username != username :: r[i] == users[i]
  {
    if |users| == 0 then []
    else
      var e := users[0];
      [if e.username == username then e.(present := false, leftAt := Some(now)) else e]
      + MarkLeft(users[1..], username, now)
  }

  /** `changeTool`: every entry of the user gets the tool; the others are kept. */
  function SetTool(users: seq<UserEntry>, username: string, toolName: string): (r: seq<UserEntry>)
    ensures |r| == |users|
    ensures forall i | 0 <= i < |users| && users[i].username == username ::
              r[i] == users[i].(currentTool := Some(toolName))
    ensures forall i | 0 <= i < |users| && users[i].username != username :: r[i] == users[i]
  {
    if |users| == 0 then []
    else
      var e := users[0];
      [if e.username == username then e.(currentTool := Some(toolName)) else e]
      + SetTool(users[1..], username, toolName)
  }

  /** `leave` and `changeTool` keep the list's length, order and usernames, hence their uniqueness. */
  lemma InPlaceUpdatesKeepNames(users: seq<UserEntry>, username: string, now: string, toolName: string)
    ensures Names(MarkLeft(users, username, now)) == Names(users)
    ensures Names(SetTool(users, username, toolName)) == Names(users)
    ensures UniqueNames(users) ==> UniqueNames(MarkLeft(users, username, now))
    ensures UniqueNames(users) ==> UniqueNames(SetTool(users, username, toolName))
  {
  }

  /** A join leaves exactly one entry with the user's name, and keeps every other name unique. */
  lemma JoinedKeepsUnique(users: seq<UserEntry>, username: string, now: string)
    requires UniqueNames(users)
    ensures UniqueNames(Joined(users, username, now))
  {
    var rest := WithoutUser(users, username);
    WithoutUserKeepsUnique(users, username);
    var r := Joined(users, username, now);
    assert r == [FreshEntry(username, now)] + rest;
    forall i, j | 0 <= i < j < |r| ensures r[i].username != r[j].username {
      if i > 0 {
        assert r[i] == rest[i - 1] && r[j] == rest[j - 1];
      }
    }
  }

  // ---------------------------------------------------------------------
  // Records

  /** The stored record, or the empty one a `join` / `changeTool` on an unknown room starts from. */
  function Existing(store: Store, id: string): SessionInfo {
    if id in store then store[id] else SessionInfo(id, 0, [])
  }

  /** The new user list for a non-delete request; an empty username changes nothing. */
  function UpdatedUsers(users: seq<UserEntry>, req: SessionRequest, now: string): (r: seq<UserEntry>)
    requires !req.DeleteRequest?
    ensures req.username == "" ==> r == users
    ensures req.username != "" && req.JoinRequest? ==>
              |r| >= 1 && r[0] == FreshEntry(req.username, now) && r[1..] == WithoutUser(users, req.username)
    ensures !req.JoinRequest? ==>
              && Names(r) == Names(users)
              && forall i | 0 <= i < |users| && users[i].username != req.username :: r[i] == users[i]
    ensures req.username != "" && req.ChangeToolRequest? ==>
              forall i | 0 <= i < |r| && r[i].username == req.username :: r[i].currentTool == Some(req.toolName)
    ensures req.username != "" && req.LeaveRequest? ==>
              forall i | 0 <= i < |r| && r[i].username == req.username :: !r[i].present && r[i].leftAt == Some(now)
  {
    if req.username == "" then users
    else
      match req
      case JoinRequest(_, _, username) => Joined(users, username, now)
      case ChangeToolRequest(toolName, _, _, username) =>
        InPlaceUpdatesKeepNames(users, username, now, toolName);
        SetTool(users, username, toolName)
      case LeaveRequest(_, _, username) =>
        InPlaceUpdatesKeepNames(users, username, now, "");
        MarkLeft(users, username, now)
  }

  /**
   `updateSessionInfo`: the store after one validated notification. A delete
   drops the room's record; a leave for an unknown room changes nothing;
   anything else (re)writes the room's record with the request's connection
   count and the updated user list. No other record changes.
   */
  function UpdateSessionInfo(store: Store, req: SessionRequest, now: string): (r: Store)
    ensures req.DeleteRequest? ==> r == store - {req.id}
    ensures req.LeaveRequest? && req.id !in store ==> r == store
    ensures forall k | k != req.id :: (k in r <==> k in store) && (k in r ==> r[k] == store[k])
    ensures !req.DeleteRequest? && !(req.LeaveRequest? && req.id !in store) ==>
              && req.id in r
              && r[req.id].id == Existing(store, req.id).id
              && r[req.id].connections == req.connections
              && r[req.id].users == UpdatedUsers(Existing(store, req.id).users, req, now)
  {
    if req.DeleteRequest? then store - {req.id}
    else if req.LeaveRequest? && req.id !in store then store
    else
      var info := Existing(store, req.id);
      store[req.id := info.(connections := req.connections, users := UpdatedUsers(info.users, req, now))]
  }

  /** Every record is stored under its own id and lists each user at most once. */
  predicate ValidStore(store: Store) {
    forall k | k in store :: store[k].id == k && UniqueNames(store[k].users)
  }

  /** Every update keeps the store valid. */
  lemma UpdateKeepsValid(store: Store, req: SessionRequest, now: string)
    requires ValidStore(store)
    ensures ValidStore(UpdateSessionInfo(store, req, now))
  {
    var r := UpdateSessionInfo(store, req, now);
    if !req.DeleteRequest? && !(req.LeaveRequest? && req.id !in store) {
      var users := Existing(store, req.id).users;
      assert UniqueNames(users);
      if req.username != "" {
        match req {
          case JoinRequest(_, _, username) => JoinedKeepsUnique(users, username, now);
          case ChangeToolRequest(toolName, _, _, username) => InPlaceUpdatesKeepNames(users, username, now, toolName);
          case LeaveRequest(_, _, username) => InPlaceUpdatesKeepNames(users, username, now, "");
        }
      }
    }
  }

  /**
   After a join with a username, the room's record exists and lists that user
   first, present, joined now, exactly once; a re-join replaces the stale entry.
   */
  lemma JoinPutsUserFirst(store: Store, req: SessionRequest, now: string)
    requires req.JoinRequest? && req.username != ""
    ensures var r := UpdateSessionInfo(store, req, now);
            && req.id in r
            && |r[req.id].users| >= 1
            && r[req.id].users[0] == FreshEntry(req.username, now)
            && forall i | 1 <= i < |r[req.id].users| :: r[req.id].users[i].username != req.username
  {
  }

  /** A join or tool change for an unknown room creates its record with the request's count. */
  lemma FirstNotificationCreatesRecord(store: Store, req: SessionRequest, now: string)
    requires req.JoinRequest? || req.ChangeToolRequest?
    requires req.id !in store
    ensures var r := UpdateSessionInfo(store, req, now);
            && req.id in r
            && r[req.id].id == req.id
            && r[req.id].connections == req.connections
            && (req.username == "" ==> r[req.id].users == [])
            && (req.JoinRequest? && req.username != "" ==> r[req.id].users == [FreshEntry(req.username, now)])
            && (req.ChangeToolRequest? ==> r[req.id].users == [])
  {
    if req.JoinRequest? && req.username != "" {
      var u := UpdateSessionInfo(store, req, now)[req.id].users;
      assert u == [FreshEntry(req.username, now)] + WithoutUser([], req.username);
    }
  }

  /**
   A notification with an empty username still (re)writes the record with its
   count, but leaves the user list as it was.
   */
  lemma EmptyUsernameKeepsUsers(store: Store, req: SessionRequest, now: string)
    requires !req.DeleteRequest? && req.username == ""
    requires !(req.LeaveRequest? && req.id !in store)
    ensures var r := UpdateSessionInfo(store, req, now);
            && req.id in r
            && r[req.id].connections == req.connections
            && r[req.id].users == (if req.id in store then store[req.id].users else [])
  {
  }

  /**
   A tool change for a listed user shows the tool on that user's entry and
   touches nothing else in the record.
   */
  lemma ChangeToolIsVisible(store: Store, req: SessionRequest, now: string, i: nat)
    requires req.ChangeToolRequest? && req.username != ""
    requires req.id in store && i < |store[req.id].users|
    requires store[req.id].users[i].username == req.username
    ensures var r := UpdateSessionInfo(store, req, now);
            && |r[req.id].users| == |store[req.id].users|
            && r[req.id].users[i] == store[req.id].users[i].(currentTool := Some(req.toolName))
  {
  }

  /** A leave marks the user absent with the time and keeps every entry in place. */
  lemma LeaveMarksAbsent(store: Store, req: SessionRequest, now: string, i: nat)
    requires req.LeaveRequest? && req.username != ""
    requires req.id in store && i < |store[req.id].users|
    requires store[req.id].users[i].username == req.username
    ensures var r := UpdateSessionInfo(store, req, now);
            && Names(r[req.id].users) == Names(store[req.id].users)
            && !r[req.id].users[i].present
            && r[req.id].users[i].leftAt == Some(now)
  {
    InPlaceUpdatesKeepNames(store[req.id].users, req.username, now, "");
  }

  // ---------------------------------------------------------------------
  // Listing and request routing

  /** `getActiveSessions`: every stored record, and nothing else. */
  function Listing(store: Store): (r: set<SessionInfo>)
    ensures forall k | k in store :: store[k] in r
    ensures forall info | info in r :: exists k | k in store :: store[k] == info
  {
    set k | k in store :: store[k]
  }

  /** After a delete, no record of a valid store carries the deleted id, and every other record is still listed. */
  lemma DeleteRemovesFromListing(store: Store, req: SessionRequest, now: string)
    requires ValidStore(store) && req.DeleteRequest?
    ensures forall info | info in Listing(UpdateSessionInfo(store, req, now)) :: info.id != req.id
    ensures forall k | k in store && k != req.id :: store[k] in Listing(UpdateSessionInfo(store, req, now))
  {
  }

  datatype Method =
    | Get
    | Post(update: SessionRequest)  // the validated body
    | Delete
    | OtherMethod

  datatype Response = NotFound | SessionList(sessions: set<SessionInfo>)

  /** One request's outcome: the store after it, the reply, and what is broadcast to the room's connections. */
  datatype Step = Step(store: Store, response: Response, broadcast: Option<ServerMessage>)

  /**
   `onRequest`: only the singleton room answers. GET lists, POST applies the
   update then lists and broadcasts the listing, DELETE empties the store and
   broadcasts an empty listing; any other method is not found.
   */
  function OnRequest(roomId: string, store: Store, request: Method, now: string): (r: Step)
    ensures roomId != SINGLETON_ROOM_ID || request.OtherMethod? ==> r == Step(store, NotFound, None)
    ensures r.response.NotFound? ==> r.store == store && r.broadcast.None?
    ensures roomId == SINGLETON_ROOM_ID && request.Get? ==>
              r == Step(store, SessionList(Listing(store)), None)
    ensures roomId == SINGLETON_ROOM_ID && request.Post? ==>
              && r.store == UpdateSessionInfo(store, request.update, now)
              && r.response == SessionList(Listing(r.store))
              && r.broadcast == Some(ServerSessionUpdate(Listing(r.store)))
    ensures roomId == SINGLETON_ROOM_ID && request.Delete? ==>
              r == Step(map[], SessionList({}), Some(ServerSessionUpdate({})))
  {
    if roomId != SINGLETON_ROOM_ID then Step(store, NotFound, None)
    else
      match request
      case Get => Step(store, SessionList(Listing(store)), None)
      case Post(update) =>
        var store' := UpdateSessionInfo(store, update, now);
        Step(store', SessionList(Listing(store')), Some(ServerSessionUpdate(Listing(store'))))
      case Delete => Step(map[], SessionList({}), Some(ServerSessionUpdate({})))
      case OtherMethod => Step(store, NotFound, None)
  }

  /** A DELETE leaves nothing to list. */
  lemma DeleteAllEmptiesListing(store: Store, now: string)
    ensures Listing(OnRequest(SINGLETON_ROOM_ID, store, Delete, now).store) == {}
  {
  }

  /** Requests keep the store valid. */
  lemma OnRequestKeepsValid(roomId: string, store: Store, request: Method, now: string)
    requires ValidStore(store)
    ensures ValidStore(OnRequest(roomId, store, request, now).store)
  {
    if roomId == SINGLETON_ROOM_ID && request.Post? {
      UpdateKeepsValid(store, request.update, now);
    }
  }

  /** `onConnect`: a new directory connection is sent the current listing. */
  function OnConnect(store: Store): (snapshot: ServerMessage)
    ensures snapshot.ServerSessionUpdate?
    ensures forall k | k in store :: store[k] in snapshot.sessions
    ensures forall info | info in snapshot.sessions :: exists k | k in store :: store[k] == info
  {
    ServerSessionUpdate(Listing(store))
  }
}
