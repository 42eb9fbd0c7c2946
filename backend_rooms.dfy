/** The first room registry (backend/app.js): a map from room id to the
    room's users and host, driven by the socket events `join-room`,
    `disconnect`, `kick-user` and `request-host-id`. Emitted socket.io events
    are returned as a list in emission order. */
module BackendRooms {
  import opened Basics

  type UserId = string
  type RoomId = string
  type SocketId = string

  /** `{ users: Set<userId>, hostId }`; `hostId` is `null` (None) only while
      the join that created the room is still running. */
  datatype Room = Room(users: seq<UserId>, hostId: Option<UserId>)

  type Registry = map<RoomId, Room>

  /** Who receives an emitted event: `io.to(room)` (everyone in the room),
      `socket.emit` (that socket only), `socket.to(room)` (the room without
      the sending socket). */
  datatype Target =
    | Everyone(roomId: RoomId)
    | Only(socketId: SocketId)
    | OthersIn(roomId: RoomId, except: SocketId)

  datatype Event =
    | SetHost(to: Target, hostId: UserId)
    | UserConnected(to: Target, userId: UserId)
    | UserDisconnected(to: Target, userId: UserId)
    | UserKicked(to: Target, userId: UserId)

  /** `if (room.hostId)`: a host is set and is not the empty string. */
  predicate HasHost(room: Room) {
    room.hostId.Some? && Truthy(room.hostId.value)
  }

  /** The registry invariant: every stored room has a host, the host is one
      of its users, and its users hold no duplicates. */
  ghost predicate Consistent(rooms: Registry) {
    forall id :: id in rooms ==>
      && rooms[id].hostId.Some?
      && rooms[id].hostId.value in rooms[id].users
      && Distinct(rooms[id].users)
  }

  /** The registry after `join-room(roomId, userId)`. */
  function Join(rooms: Registry, roomId: RoomId, userId: UserId): (r: Registry)
    ensures r - {roomId} == rooms - {roomId}
    ensures roomId in r && userId in r[roomId].users
    ensures roomId !in rooms ==> r[roomId] == Room([userId], Some(userId))
    ensures roomId in rooms ==>
      var before := rooms[roomId];
      && (forall u :: u in r[roomId].users <==> u in before.users || u == userId)
      && |r[roomId].users| >= |before.users|
      && r[roomId].users[..|before.users|] == before.users
      && (userId in before.users ==> r[roomId].users == before.users)
      && r[roomId].hostId == (if HasHost(before) then before.hostId else Some(userId))
  {
    var room := if roomId in rooms then rooms[roomId] else Room([], None);
    var users := Add(room.users, userId);
    var host := if HasHost(room) then room.hostId else Some(userId);
    rooms[roomId := Room(users, host)]
  }

  function JoinEvents(rooms: Registry, socketId: SocketId, roomId: RoomId, userId: UserId): seq<Event> {
    var room := if roomId in rooms then rooms[roomId] else Room([], None);
    (if HasHost(room) then [SetHost(Only(socketId), room.hostId.value)]
     else [SetHost(Everyone(roomId), userId)])
    + [UserConnected(OthersIn(roomId, socketId), userId)]
  }

  /** The registry after one run of the disconnect listener of a socket that
      joined `roomId` as `userId`. A falsy room id is never cleaned up. */
  function Leave(rooms: Registry, roomId: RoomId, userId: UserId): (r: Registry)
    ensures r - {roomId} == rooms - {roomId}
    ensures !(Truthy(roomId) && roomId in rooms) ==> r == rooms
    ensures Truthy(roomId) && roomId in rooms ==>
      var before := rooms[roomId];
      && (roomId in r <==> exists u :: u in before.users && u != userId)
      && (roomId in r ==> r[roomId].users == Delete(before.users, userId))
      && (roomId in r ==> forall u :: u in r[roomId].users <==> u in before.users && u != userId)
      && (roomId in r && before.hostId != Some(userId) ==> r[roomId].hostId == before.hostId)
      && (roomId in r && before.hostId == Some(userId) && Distinct(before.users) ==>
            r[roomId].hostId == Some(if before.users[0] == userId then before.users[1] else before.users[0]))
  {
    if !Truthy(roomId) || roomId !in rooms then rooms
    else
      var room := rooms[roomId];
      var users := Delete(room.users, userId);
      if room.hostId == Some(userId) && |users| > 0 then
        assert users[0] in room.users && users[0] != userId;
        rooms[roomId := Room(users, Some(users[0]))]
      else if |users| == 0 then rooms - {roomId}
      else
        assert users[0] in room.users && users[0] != userId;
        rooms[roomId := Room(users, room.hostId)]
  }

  function LeaveEvents(rooms: Registry, socketId: SocketId, roomId: RoomId, userId: UserId): seq<Event> {
    if !Truthy(roomId) || roomId !in rooms then []
    else
      var room := rooms[roomId];
      var users := Delete(room.users, userId);
      (if room.hostId == Some(userId) && |users| > 0 then [SetHost(Everyone(roomId), users[0])] else [])
      + [UserDisconnected(OthersIn(roomId, socketId), userId)]
  }

  lemma JoinKeepsConsistent(rooms: Registry, roomId: RoomId, userId: UserId)
    requires Consistent(rooms)
    ensures Consistent(Join(rooms, roomId, userId))
  {
  }

  lemma LeaveKeepsConsistent(rooms: Registry, roomId: RoomId, userId: UserId)
    requires Consistent(rooms)
    ensures Consistent(Leave(rooms, roomId, userId))
  {
  }

  /** A second run of the disconnect listener changes nothing more: the
      leaver is gone and is no longer host. */
  lemma {:induction false} LeaveIsIdempotent(rooms: Registry, roomId: RoomId, userId: UserId)
    ensures Leave(Leave(rooms, roomId, userId), roomId, userId) == Leave(rooms, roomId, userId)
  {
    var once := Leave(rooms, roomId, userId);
    if Truthy(roomId) && roomId in once {
      var users := Delete(rooms[roomId].users, userId);
      assert once[roomId].users == users;
      assert once[roomId].hostId != Some(userId);
      assert Delete(users, userId) == users;
      assert once[roomId := Room(users, once[roomId].hostId)] == once;
    }
  }

  /** What a later disconnect listener emits: the leaver is no longer host,
      so never `set-host`; `user-disconnected` only while the room still
      exists, and nothing once the first run deleted it. */
  lemma LaterLeaveEvents(rooms: Registry, socketId: SocketId, roomId: RoomId, userId: UserId)
    ensures var after := Leave(rooms, roomId, userId);
      LeaveEvents(after, socketId, roomId, userId)
      == if Truthy(roomId) && roomId in after then [UserDisconnected(OthersIn(roomId, socketId), userId)] else []
  {
    var after := Leave(rooms, roomId, userId);
    if Truthy(roomId) && roomId in after {
      assert after[roomId].hostId != Some(userId);
    }
  }

  /** A history of registry operations. */
  datatype Op = JoinOp(roomId: RoomId, userId: UserId) | LeaveOp(roomId: RoomId, userId: UserId)

  function Apply(rooms: Registry, ops: seq<Op>): Registry
    decreases |ops|
  {
    if ops == [] then rooms
    else
      var last := ops[|ops| - 1];
      var before := Apply(rooms, ops[..|ops| - 1]);
      match last
      case JoinOp(r, u) => Join(before, r, u)
      case LeaveOp(r, u) => Leave(before, r, u)
  }

  /** Over any history starting from the empty registry, every room that
      exists has its host among its users. */
  lemma {:induction false} HostIsAlwaysMember(ops: seq<Op>)
    ensures Consistent(Apply(map[], ops))
    decreases |ops|
  {
    if ops != [] {
      var before := Apply(map[], ops[..|ops| - 1]);
      HostIsAlwaysMember(ops[..|ops| - 1]);
      match ops[|ops| - 1]
      case JoinOp(r, u) => JoinKeepsConsistent(before, r, u);
      case LeaveOp(r, u) => LeaveKeepsConsistent(before, r, u);
    }
  }

  /** alice opens r1 and is host; bob joins and is told alice is host;
      alice leaves and bob takes over; bob leaves and r1 is gone. */
  lemma TwoUserSession()
    ensures var r0: Registry := map[];
      var r1 := Join(r0, "r1", "alice");
      var r2 := Join(r1, "r1", "bob");
      var r3 := Leave(r2, "r1", "alice");
      var r4 := Leave(r3, "r1", "bob");
      && r1["r1"] == Room(["alice"], Some("alice"))
      && JoinEvents(r1, "s-bob", "r1", "bob")
         == [SetHost(Only("s-bob"), "alice"), UserConnected(OthersIn("r1", "s-bob"), "bob")]
      && r2["r1"] == Room(["alice", "bob"], Some("alice"))
      && r3["r1"] == Room(["bob"], Some("bob"))
      && "r1" !in r4
  {
    var r1 := Join(map[], "r1", "alice");
    var r2 := Join(r1, "r1", "bob");
    assert r2["r1"].users == ["alice", "bob"];
    var r3 := Leave(r2, "r1", "alice");
    assert r3["r1"].users == Delete(["alice", "bob"], "alice") == ["bob"];
  }

  /** One socket.io connection. `session` holds `socket.userId` and
      `socket.roomId` once the socket has sent `join-room`, and the number of
      `disconnect` listeners it has registered: each `join-room` adds one. */
  datatype Session = Session(userId: UserId, roomId: RoomId, listeners: nat)
  datatype Socket = Socket(id: SocketId, session: Option<Session>)

  predicate Connected(sockets: seq<Socket>, id: SocketId) {
    exists i :: 0 <= i < |sockets| && sockets[i].id == id
  }

  function IndexOf(sockets: seq<Socket>, id: SocketId): (i: nat)
    requires Connected(sockets, id)
    ensures i < |sockets| && sockets[i].id == id
    ensures forall j :: 0 <= j < i ==> sockets[j].id != id
  {
    if sockets[0].id == id then 0 else 1 + IndexOf(sockets[1..], id)
  }

  /** The socket `kick-user` picks: the first connected socket, in connection
      order, that joined `roomId` as `userId`. */
  function FindSocket(sockets: seq<Socket>, userId: UserId, roomId: RoomId): (r: Option<nat>)
    ensures r.Some? ==>
      && r.value < |sockets| && sockets[r.value].session.Some?
      && sockets[r.value].session.value.userId == userId
      && sockets[r.value].session.value.roomId == roomId
    ensures forall j :: 0 <= j < |sockets| && (r.None? || j < r.value) ==>
      !(sockets[j].session.Some? && sockets[j].session.value.userId == userId
        && sockets[j].session.value.roomId == roomId)
  {
    if sockets == [] then None
    else if sockets[0].session.Some? && sockets[0].session.value.userId == userId
            && sockets[0].session.value.roomId == roomId then Some(0)
    else
      match FindSocket(sockets[1..], userId, roomId)
      case None => None
      case Some(k) => Some(k + 1)
  }

  ghost predicate SocketsWellFormed(sockets: seq<Socket>) {
    && (forall i, j :: 0 <= i < j < |sockets| ==> sockets[i].id != sockets[j].id)
    && (forall i :: 0 <= i < |sockets| && sockets[i].session.Some? ==> sockets[i].session.value.listeners > 0)
  }

  lemma RemoveSocketKeepsWellFormed(sockets: seq<Socket>, i: nat)
    requires SocketsWellFormed(sockets) && i < |sockets|
    ensures SocketsWellFormed(sockets[..i] + sockets[i + 1..])
  {
    var rest := sockets[..i] + sockets[i + 1..];
    forall a | 0 <= a < |rest|
      ensures rest[a] == sockets[if a < i then a else a + 1]
    {
    }
  }

  /** Everything the disconnect listeners of a socket emit, one run per
      listener: the first run sees the registry as it was, the others see it
      after the first. */
  function DisconnectEvents(rooms: Registry, socketId: SocketId, s: Session): seq<Event>
    requires s.listeners > 0
  {
    LeaveEvents(rooms, socketId, s.roomId, s.userId)
    + Repeat(LeaveEvents(Leave(rooms, s.roomId, s.userId), socketId, s.roomId, s.userId), s.listeners - 1)
  }

  /** Whether `kick-user` from this socket passes the host check: its room
      id is truthy, the room exists and its host is the socket's user. */
  predicate MayKick(rooms: Registry, session: Option<Session>) {
    && session.Some?
    && Truthy(session.value.roomId)
    && session.value.roomId in rooms
    && rooms[session.value.roomId].hostId == Some(session.value.userId)
  }

  /** The socket.io server of backend/app.js: the module-level `rooms` map
      and the table of connected sockets in connection order. */
  class SignalingServer {
    var rooms: Registry
    var sockets: seq<Socket>

    ghost predicate Valid()
      reads this
    {
      Consistent(rooms) && SocketsWellFormed(sockets)
    }

    constructor ()
      ensures Valid() && rooms == map[] && sockets == []
    {
      rooms := map[];
      sockets := [];
    }

    /** `io.on("connection")`: socket.io hands out a fresh socket id. */
    method Connect(id: SocketId)
      requires Valid() && !Connected(sockets, id)
      modifies this
      ensures Valid()
      ensures rooms == old(rooms) && sockets == old(sockets) + [Socket(id, None)]
    {
      sockets := sockets + [Socket(id, None)];
    }

    /** `join-room`: records user and room on the socket, registers one more
      disconnect listener and joins the registry. */
    method JoinRoom(id: SocketId, roomId: RoomId, userId: UserId) returns (events: seq<Event>)
      requires Valid() && Connected(sockets, id)
      modifies this
      ensures Valid()
      ensures rooms == Join(old(rooms), roomId, userId)
      ensures events == JoinEvents(old(rooms), id, roomId, userId)
      ensures var i := IndexOf(old(sockets), id);
        var listeners := match old(sockets)[i].session
          case None => 1
          case Some(s) => s.listeners + 1;
        sockets == old(sockets)[i := Socket(id, Some(Session(userId, roomId, listeners)))]
    {
      RecordJoin(id, roomId, userId);
      events := JoinRegistry(id, roomId, userId);
    }

    /** `socket.userId = userId; socket.roomId = roomId` and the new
      `disconnect` listener. */
    method RecordJoin(id: SocketId, roomId: RoomId, userId: UserId)
      requires Valid() && Connected(sockets, id)
      modifies this
      ensures Valid() && rooms == old(rooms)
      ensures var i := IndexOf(old(sockets), id);
        var listeners := match old(sockets)[i].session
          case None => 1
          case Some(s) => s.listeners + 1;
        sockets == old(sockets)[i := Socket(id, Some(Session(userId, roomId, listeners)))]
    {
      var i := IndexOf(sockets, id);
      var listeners := match sockets[i].session
        case None => 1
        case Some(s) => s.listeners + 1;
      sockets := sockets[i := Socket(id, Some(Session(userId, roomId, listeners)))];
    }

    /** The registry part of `join-room`. */
    method JoinRegistry(id: SocketId, roomId: RoomId, userId: UserId) returns (events: seq<Event>)
      requires Valid()
      modifies this
      ensures Valid() && sockets == old(sockets)
      ensures rooms == Join(old(rooms), roomId, userId)
      ensures events == JoinEvents(old(rooms), id, roomId, userId)
    {
      if roomId !in rooms {
        rooms := rooms[roomId := Room([], None)];
      }
      var room := rooms[roomId];
      room := room.(users := Add(room.users, userId));
      if !HasHost(room) {
        room := room.(hostId := Some(userId));
        events := [SetHost(Everyone(roomId), userId)];
      } else {
        events := [SetHost(Only(id), room.hostId.value)];
      }
      rooms := rooms[roomId := room];
      events := events + [UserConnected(OthersIn(roomId, id), userId)];
      JoinKeepsConsistent(old(rooms), roomId, userId);
    }

    /** One run of the `disconnect` listener registered by `join-room`. */
    method RunDisconnectListener(id: SocketId, roomId: RoomId, userId: UserId) returns (events: seq<Event>)
      requires Valid()
      modifies this
      ensures Valid() && sockets == old(sockets)
      ensures rooms == Leave(old(rooms), roomId, userId)
      ensures events == LeaveEvents(old(rooms), id, roomId, userId)
    {
      events := [];
      if Truthy(roomId) && roomId in rooms {
        var room := rooms[roomId];
        room := room.(users := Delete(room.users, userId));
        if room.hostId == Some(userId) && |room.users| > 0 {
          var newHost := room.users[0];
          room := room.(hostId := Some(newHost));
          rooms := rooms[roomId := room];
          events := [SetHost(Everyone(roomId), newHost)];
        } else if |room.users| == 0 {
          rooms := rooms - {roomId};
        } else {
          rooms := rooms[roomId := room];
        }
        events := events + [UserDisconnected(OthersIn(roomId, id), userId)];
      }
      LeaveKeepsConsistent(old(rooms), roomId, userId);
    }

    /** `disconnect`: the socket leaves the table and each of its disconnect
      listeners runs once. */
    method Disconnect(id: SocketId) returns (events: seq<Event>)
      requires Valid() && Connected(sockets, id)
      modifies this
      ensures Valid()
      ensures var i := IndexOf(old(sockets), id);
        sockets == old(sockets)[..i] + old(sockets)[i + 1..]
      ensures match old(sockets)[IndexOf(old(sockets), id)].session
        case None => rooms == old(rooms) && events == []
        case Some(s) =>
          && rooms == Leave(old(rooms), s.roomId, s.userId)
          && s.listeners > 0
          && events == DisconnectEvents(old(rooms), id, s)
    {
      var i := IndexOf(sockets, id);
      var session := sockets[i].session;
      RemoveSocketKeepsWellFormed(sockets, i);
      sockets := sockets[..i] + sockets[i + 1..];
      events := [];
      if session.Some? {
        events := RunDisconnectListeners(id, session.value);
      }
    }

    /** Runs each of the `s.listeners` disconnect listeners of a socket. */
    method RunDisconnectListeners(id: SocketId, s: Session) returns (events: seq<Event>)
      requires Valid() && s.listeners > 0
      modifies this
      ensures Valid() && sockets == old(sockets)
      ensures rooms == Leave(old(rooms), s.roomId, s.userId)
      ensures events == DisconnectEvents(old(rooms), id, s)
    {
      ghost var after := Leave(rooms, s.roomId, s.userId);
      ghost var first := LeaveEvents(rooms, id, s.roomId, s.userId);
      ghost var later := LeaveEvents(after, id, s.roomId, s.userId);
      LeaveIsIdempotent(rooms, s.roomId, s.userId);
      events := RunDisconnectListener(id, s.roomId, s.userId);
      var n := 1;
      while n < s.listeners
        invariant 1 <= n <= s.listeners
        invariant Valid() && sockets == old(sockets)
        invariant rooms == after && events == first + Repeat(later, n - 1)
      {
        var more := RunDisconnectListener(id, s.roomId, s.userId);
        assert more == later;
        assert Repeat(later, n) == Repeat(later, n - 1) + later;
        events := events + more;
        n := n + 1;
      }
    }

    /** `kick-user`: only the host of the caller's room may kick; the target
      is the first socket that joined that room as `targetUserId`; it is told,
      the room is told, and its disconnect runs as for any disconnect. */
    method KickUser(id: SocketId, targetUserId: UserId) returns (events: seq<Event>)
      requires Valid() && Connected(sockets, id)
      modifies this
      ensures Valid()
      ensures var caller := old(sockets)[IndexOf(old(sockets), id)].session;
        var found := if MayKick(old(rooms), caller)
          then FindSocket(old(sockets), targetUserId, caller.value.roomId) else None;
        match found
        case None => rooms == old(rooms) && sockets == old(sockets) && events == []
        case Some(t) =>
          var target := old(sockets)[t];
          var roomId := caller.value.roomId;
          && rooms == Leave(old(rooms), roomId, targetUserId)
          && sockets == old(sockets)[..t] + old(sockets)[t + 1..]
          && events == [UserKicked(Only(target.id), targetUserId), UserKicked(Everyone(roomId), targetUserId)]
                       + DisconnectEvents(old(rooms), target.id, target.session.value)
    {
      events := [];
      var caller := sockets[IndexOf(sockets, id)].session;
      if MayKick(rooms, caller) {
        var roomId := caller.value.roomId;
        var found := FindSocket(sockets, targetUserId, roomId);
        if found.Some? {
          var target := sockets[found.value];
          assert IndexOf(sockets, target.id) == found.value;
          events := [UserKicked(Only(target.id), targetUserId), UserKicked(Everyone(roomId), targetUserId)];
          var more := Disconnect(target.id);
          events := events + more;
        }
      }
    }

    /** `request-host-id`: replies to the caller with the host, when the room
      id is truthy, the room exists and its host is truthy. */
    method RequestHostId(id: SocketId, roomId: RoomId) returns (events: seq<Event>)
      ensures |events| <= 1
      ensures events != [] <==> Truthy(roomId) && roomId in rooms && HasHost(rooms[roomId])
      ensures events != [] ==> events[0] == SetHost(Only(id), rooms[roomId].hostId.value)
    {
      events := [];
      if Truthy(roomId) && roomId in rooms {
        var room := rooms[roomId];
        if HasHost(room) {
          events := [SetHost(Only(id), room.hostId.value)];
        }
      }
    }
  }
}
