/** The second room registry (socket-server/server.js): rooms with an
    explicit host, a participant set and a capacity of four, driven by
    `check-room`, `initialize-host`, `join-as-participant`, `disconnect`, the
    host controls and `leave-meeting`. The handlers key membership on the
    payload's `userId` in some places and on `socket.id` in others; both are
    the one type `Id` here, and each handler uses the one its source uses. */
module MeetingRooms {
  import opened Basics

  type Id = string
  type RoomId = string

  const MaxParticipants: int := 4

  datatype Room = Room(host: Id, participants: seq<Id>, maxParticipants: int)

  /** The module-level `rooms` Map: its keys in insertion order (the order
      `rooms.entries()` visits them) and the entry of each key. */
  datatype Rooms = Rooms(order: seq<RoomId>, byId: map<RoomId, Room>)

  datatype Role = HostRole | ParticipantRole

  /** `socket.emit` (the caller), `io.to(roomId)`, `socket.to(roomId)` (the
      room without the caller) and `io.to(id)` (the socket room named by an id). */
  datatype Target = Caller | InRoom(roomId: RoomId) | OthersInRoom(roomId: RoomId) | ToId(id: Id)

  datatype Event =
    | RoleChanged(to: Target, role: Role)
    | ErrorMessage(to: Target, message: string)
    | RoomFull(to: Target)
    | ParticipantJoined(to: Target, userId: Id)
    | HostChanged(to: Target, host: Id)
    | ParticipantLeft(to: Target, id: Id)
    | ParticipantMuted(to: Target, id: Id)
    | ParticipantUnmuted(to: Target, id: Id)
    | RemovedFromRoom(to: Target)
    | ParticipantRemoved(to: Target, id: Id)
    | MeetingEnded(to: Target)
    | MuteStateChanged(to: Target, userId: Id, isMuted: bool)
    | VideoStateChanged(to: Target, userId: Id, isVideoEnabled: bool)

  /** The `check-room` callback's argument; `participants` is absent when the
      room does not exist. */
  datatype CheckReply = CheckReply(roomExists: bool, isHost: bool, participants: Option<seq<Id>>)

  /** What every handler keeps: keys listed once each, participant sets free
      of duplicates, capacity four and never exceeded. Unlike the first
      registry, the host need not be a participant and a room may be empty. */
  ghost predicate WellFormed(t: Rooms) {
    && Distinct(t.order)
    && (forall k :: k in t.byId <==> k in t.order)
    && (forall k :: k in t.byId ==>
          && Distinct(t.byId[k].participants)
          && t.byId[k].maxParticipants == MaxParticipants
          && |t.byId[k].participants| <= MaxParticipants)
  }

  // ---------------------------------------------------------------------
  // Lookup: findUserRoom

  /** The position in key order of the first room whose participants hold `id`. */
  function FirstIndexWith(order: seq<RoomId>, byId: map<RoomId, Room>, id: Id): (r: Option<nat>)
    requires forall k :: k in order ==> k in byId
    ensures r.Some? ==> r.value < |order| && id in byId[order[r.value]].participants
    ensures forall j :: 0 <= j < |order| && (r.None? || j < r.value) ==> id !in byId[order[j]].participants
  {
    if order == [] then None
    else if id in byId[order[0]].participants then Some(0)
    else
      match FirstIndexWith(order[1..], byId, id)
      case None => None
      case Some(j) => Some(j + 1)
  }

  /** The room `findUserRoom(id)` returns, by key. */
  function UserRoom(t: Rooms, id: Id): Option<RoomId>
    requires WellFormed(t)
  {
    match FirstIndexWith(t.order, t.byId, id)
    case None => None
    case Some(j) => Some(t.order[j])
  }

  // ---------------------------------------------------------------------
  // State transitions of the handlers

  /** `initialize-host`: a room is created, with the caller's `userId` as
      host and only participant, only when the id is not taken. */
  function AfterInitializeHost(t: Rooms, roomId: RoomId, userId: Id): (r: Rooms)
    ensures roomId in t.byId ==> r == t
    ensures roomId in r.byId && r.byId - {roomId} == t.byId - {roomId}
    ensures roomId !in t.byId ==> r.byId[roomId] == Room(userId, [userId], MaxParticipants)
    ensures roomId !in t.byId ==> r.order == t.order + [roomId]
  {
    if roomId in t.byId then t
    else Rooms(t.order + [roomId], t.byId[roomId := Room(userId, [userId], MaxParticipants)])
  }

  datatype Admission = NoSuchRoom | Full | Admitted

  function Admit(t: Rooms, roomId: RoomId): Admission {
    if roomId !in t.byId then NoSuchRoom
    else if |t.byId[roomId].participants| >= t.byId[roomId].maxParticipants then Full
    else Admitted
  }

  /** `join-as-participant`: only an admitted join changes anything, it adds
      exactly that user, and it cannot take a room over its capacity. */
  function AfterJoin(t: Rooms, roomId: RoomId, userId: Id): (r: Rooms)
    ensures Admit(t, roomId) != Admitted ==> r == t
    ensures Admit(t, roomId) == Admitted ==>
      var before := t.byId[roomId];
      && r.order == t.order
      && roomId in r.byId && r.byId - {roomId} == t.byId - {roomId}
      && r.byId[roomId].host == before.host
      && r.byId[roomId].maxParticipants == before.maxParticipants
      && r.byId[roomId].participants == Add(before.participants, userId)
      && (forall u :: u in r.byId[roomId].participants <==> u in before.participants || u == userId)
      && |r.byId[roomId].participants| <= r.byId[roomId].maxParticipants
  {
    if Admit(t, roomId) != Admitted then t
    else
      var room := t.byId[roomId];
      Rooms(t.order, t.byId[roomId := room.(participants := Add(room.participants, userId))])
  }

  /** A room after the disconnect sweep passes over it: the caller is
      deleted and, if the caller was host and others remain, the first
      remaining participant becomes host. */
  function SweepRoom(room: Room, self: Id): Room {
    if self !in room.participants then room
    else
      var ps := Delete(room.participants, self);
      Room(if room.host == self && |ps| > 0 then ps[0] else room.host, ps, room.maxParticipants)
  }

  /** Whether a room stays in the map after the sweep: only a room that the
      caller's removal leaves empty is deleted. */
  predicate Survives(room: Room, self: Id) {
    self !in room.participants || |Delete(room.participants, self)| > 0
  }

  function SweptTable(byId: map<RoomId, Room>, self: Id): map<RoomId, Room> {
    map k | k in byId && Survives(byId[k], self) :: SweepRoom(byId[k], self)
  }

  /** The keys of `keys` that are in `m`, in their order. */
  function KeepIn(keys: seq<RoomId>, m: map<RoomId, Room>): (r: seq<RoomId>)
    ensures forall k :: k in r <==> k in keys && k in m
    ensures Distinct(keys) ==> Distinct(r)
    decreases |keys|
  {
    if keys == [] then []
    else
      var last := keys[|keys| - 1];
      var init := keys[..|keys| - 1];
      assert forall k :: k in keys <==> k in init || k == last;
      assert Distinct(keys) ==> last !in init;
      KeepIn(init, m) + (if last in m then [last] else [])
  }

  /** The keys KeepIn keeps stay in the order they had: of any two of them,
      the earlier one also comes earlier in the original sequence. */
  lemma {:induction false} KeepInKeepsOrder(keys: seq<RoomId>, m: map<RoomId, Room>)
    ensures forall i, j :: 0 <= i < j < |KeepIn(keys, m)| ==> Precedes(keys, KeepIn(keys, m)[i], KeepIn(keys, m)[j])
    decreases |keys|
  {
    if keys != [] {
      var init := keys[..|keys| - 1];
      var ri := KeepIn(init, m);
      var r := KeepIn(keys, m);
      KeepInKeepsOrder(init, m);
      forall i, j | 0 <= i < j < |r|
        ensures Precedes(keys, r[i], r[j])
      {
        assert r[i] == ri[i];
        if j < |ri| {
          assert r[j] == ri[j];
          assert Precedes(init, ri[i], ri[j]);
          var a, b :| 0 <= a < b < |init| && init[a] == r[i] && init[b] == r[j];
          assert keys[a] == r[i] && keys[b] == r[j];
        } else {
          assert r[i] in init;
          var a :| 0 <= a < |init| && init[a] == r[i];
          assert keys[a] == r[i] && keys[|keys| - 1] == r[j];
        }
      }
    }
  }

  /** `disconnect`: the caller leaves every room that holds it. */
  function AfterDisconnect(t: Rooms, self: Id): (r: Rooms)
    ensures r.order == KeepIn(t.order, r.byId)
    ensures forall k :: k in r.byId ==> self !in r.byId[k].participants
    ensures forall k :: k in r.byId <==> k in t.byId && Survives(t.byId[k], self)
    ensures forall k :: k in r.byId ==> r.byId[k].participants == Delete(t.byId[k].participants, self)
    ensures forall k :: k in t.byId && self !in t.byId[k].participants ==> k in r.byId && r.byId[k] == t.byId[k]
    ensures forall k :: k in t.byId && self in t.byId[k].participants && Distinct(t.byId[k].participants) ==>
      var ps := t.byId[k].participants;
      && (k in r.byId <==> |ps| > 1)
      && (k in r.byId ==> forall u :: u in r.byId[k].participants <==> u in ps && u != self)
      && (k in r.byId && t.byId[k].host == self ==>
            r.byId[k].host == (if ps[0] == self then ps[1] else ps[0]))
      && (k in r.byId && t.byId[k].host != self ==> r.byId[k].host == t.byId[k].host)
  {
    var m := SweptTable(t.byId, self);
    Rooms(KeepIn(t.order, m), m)
  }

  /** `participants.delete(id)` in `remove-participant` and `leave-meeting`:
      no host re-election and no removal of an emptied room. */
  function AfterRemoval(t: Rooms, roomId: RoomId, id: Id): (r: Rooms)
    ensures r.order == t.order && r.byId.Keys == t.byId.Keys
    ensures roomId !in t.byId ==> r == t
    ensures roomId in t.byId ==>
      && r.byId - {roomId} == t.byId - {roomId}
      && r.byId[roomId].host == t.byId[roomId].host
      && r.byId[roomId].participants == Delete(t.byId[roomId].participants, id)
      && (forall u :: u in r.byId[roomId].participants <==> u in t.byId[roomId].participants && u != id)
  {
    if roomId !in t.byId then t
    else
      var room := t.byId[roomId];
      Rooms(t.order, t.byId[roomId := room.(participants := Delete(room.participants, id))])
  }

  /** `end-meeting` by the host: the room is deleted. */
  function AfterEndMeeting(t: Rooms, roomId: RoomId): (r: Rooms)
    ensures r.byId == t.byId - {roomId}
    ensures r.order == Delete(t.order, roomId)
    ensures forall k :: k in r.order <==> k in t.order && k != roomId
  {
    Rooms(Delete(t.order, roomId), t.byId - {roomId})
  }

  /** The registry after the disconnect loop has visited the first i keys. */
  function SweptPrefix(t: Rooms, self: Id, i: nat): Rooms
    requires WellFormed(t) && i <= |t.order|
  {
    Rooms(PrefixOrder(t.order, SweptTable(t.byId, self), i), PrefixMap(t.byId, t.order[..i], self))
  }

  function PrefixOrder(order: seq<RoomId>, swept: map<RoomId, Room>, i: nat): seq<RoomId>
    requires i <= |order|
  {
    KeepIn(order[..i], swept) + order[i..]
  }

  function PrefixMap(byId: map<RoomId, Room>, done: seq<RoomId>, self: Id): map<RoomId, Room> {
    map k | k in byId && (k !in done || Survives(byId[k], self)) ::
      if k in done then SweepRoom(byId[k], self) else byId[k]
  }

  lemma SweepStart(t: Rooms, self: Id)
    requires WellFormed(t)
    ensures SweptPrefix(t, self, 0) == t
  {
    assert t.order[..0] == [];
    assert t.order[0..] == t.order;
  }

  lemma PrefixMapStep(byId: map<RoomId, Room>, done: seq<RoomId>, k: RoomId, self: Id)
    requires k in byId && k !in done
    ensures var p := PrefixMap(byId, done, self);
      && k in p && p[k] == byId[k]
      && PrefixMap(byId, done + [k], self) ==
           if Survives(byId[k], self) then p[k := SweepRoom(byId[k], self)] else p - {k}
  {
  }

  lemma PrefixOrderStep(order: seq<RoomId>, swept: map<RoomId, Room>, i: nat)
    requires Distinct(order) && i < |order|
    ensures PrefixOrder(order, swept, i + 1) ==
      if order[i] in swept then PrefixOrder(order, swept, i) else Delete(PrefixOrder(order, swept, i), order[i])
  {
    var k := order[i];
    var done := order[..i];
    assert order[..i + 1] == done + [k];
    assert (done + [k])[..i] == done;
    assert k !in done by {
      forall j | 0 <= j < i ensures order[j] != k { }
    }
    assert order[i..] == [k] + order[i + 1..];
    assert k !in order[i + 1..] by {
      forall j | i + 1 <= j < |order| ensures order[j] != k { }
    }
    if k in swept {
      assert KeepIn(done, swept) + [k] + order[i + 1..] == KeepIn(done, swept) + order[i..];
    } else {
      assert KeepIn(order[..i + 1], swept) == KeepIn(done, swept);
      assert PrefixOrder(order, swept, i) == KeepIn(done, swept) + [k] + order[i + 1..];
      DeleteAt(KeepIn(done, swept), k, order[i + 1..]);
    }
  }

  /** Visiting key i changes that room alone, as one pass of the loop does. */
  lemma SweepStep(t: Rooms, self: Id, i: nat)
    requires WellFormed(t) && i < |t.order|
    ensures var p := SweptPrefix(t, self, i);
      var k := t.order[i];
      && k in p.byId && p.byId[k] == t.byId[k]
      && SweptPrefix(t, self, i + 1) ==
           if Survives(t.byId[k], self) then Rooms(p.order, p.byId[k := SweepRoom(t.byId[k], self)])
           else Rooms(Delete(p.order, k), p.byId - {k})
  {
    var k := t.order[i];
    assert t.order[..i + 1] == t.order[..i] + [k];
    assert k !in t.order[..i] by {
      forall j | 0 <= j < i ensures t.order[j] != k { }
    }
    PrefixMapStep(t.byId, t.order[..i], k, self);
    PrefixOrderStep(t.order, SweptTable(t.byId, self), i);
  }

  lemma SweepEnd(t: Rooms, self: Id)
    requires WellFormed(t)
    ensures SweptPrefix(t, self, |t.order|) == AfterDisconnect(t, self)
  {
    assert t.order[..|t.order|] == t.order;
    assert t.order[|t.order|..] == [];
  }

  /** The events the disconnect sweep emits for one room. */
  function RoomSweepEvents(roomId: RoomId, room: Room, self: Id): seq<Event> {
    if self !in room.participants then []
    else
      var ps := Delete(room.participants, self);
      (if room.host == self && |ps| > 0 then [HostChanged(InRoom(roomId), ps[0]), RoleChanged(ToId(ps[0]), HostRole)] else [])
      + (if |ps| == 0 then [] else [ParticipantLeft(InRoom(roomId), self)])
  }

  /** The events of the whole sweep, room by room in key order. */
  function SweepEvents(keys: seq<RoomId>, byId: map<RoomId, Room>, self: Id): seq<Event>
    requires forall k :: k in keys ==> k in byId
    decreases |keys|
  {
    if keys == [] then []
    else
      var last := keys[|keys| - 1];
      SweepEvents(keys[..|keys| - 1], byId, self) + RoomSweepEvents(last, byId[last], self)
  }

  lemma SweepEventsStep(keys: seq<RoomId>, byId: map<RoomId, Room>, self: Id, i: nat)
    requires forall k :: k in keys ==> k in byId
    requires i < |keys|
    ensures SweepEvents(keys[..i + 1], byId, self) ==
      SweepEvents(keys[..i], byId, self) + RoomSweepEvents(keys[i], byId[keys[i]], self)
  {
    assert keys[..i + 1][..i] == keys[..i];
  }

  // ---------------------------------------------------------------------
  // Every handler keeps the registry well formed

  lemma InitializeHostKeepsWellFormed(t: Rooms, roomId: RoomId, userId: Id)
    requires WellFormed(t)
    ensures WellFormed(AfterInitializeHost(t, roomId, userId))
  {
  }

  lemma JoinKeepsWellFormed(t: Rooms, roomId: RoomId, userId: Id)
    requires WellFormed(t)
    ensures WellFormed(AfterJoin(t, roomId, userId))
  {
  }

  lemma DisconnectKeepsWellFormed(t: Rooms, self: Id)
    requires WellFormed(t)
    ensures WellFormed(AfterDisconnect(t, self))
  {
  }

  lemma RemovalKeepsWellFormed(t: Rooms, roomId: RoomId, id: Id)
    requires WellFormed(t)
    ensures WellFormed(AfterRemoval(t, roomId, id))
  {
  }

  lemma EndMeetingKeepsWellFormed(t: Rooms, roomId: RoomId)
    requires WellFormed(t)
    ensures WellFormed(AfterEndMeeting(t, roomId))
  {
  }

  /** A host who removes itself stays host of a room it is no longer in,
      and the emptied room stays in the map. */
  lemma SelfRemovalOrphansHost(t: Rooms, roomId: RoomId, host: Id)
    requires roomId !in t.byId
    ensures var r := AfterRemoval(AfterInitializeHost(t, roomId, host), roomId, host);
      && roomId in r.byId
      && r.byId[roomId].host == host
      && host !in r.byId[roomId].participants
      && r.byId[roomId].participants == []
  {
    var r := AfterRemoval(AfterInitializeHost(t, roomId, host), roomId, host);
    assert Delete([host], host) == [];
  }

  /** The socket.io server of socket-server/server.js. */
  class MeetingServer {
    var rooms: Rooms

    ghost predicate Valid()
      reads this
    {
      WellFormed(rooms)
    }

    constructor ()
      ensures Valid() && rooms == Rooms([], map[])
    {
      rooms := Rooms([], map[]);
    }

    /** `findUserRoom`: the first room in key order whose participants hold
      `id`, or none. */
    method FindUserRoom(id: Id) returns (found: Option<RoomId>)
      requires Valid()
      ensures found == UserRoom(rooms, id)
      ensures found.Some? ==> found.value in rooms.byId && id in rooms.byId[found.value].participants
      ensures found.None? <==> forall k :: k in rooms.byId ==> id !in rooms.byId[k].participants
    {
      var i := 0;
      while i < |rooms.order|
        invariant 0 <= i <= |rooms.order|
        invariant forall j :: 0 <= j < i ==> id !in rooms.byId[rooms.order[j]].participants
      {
        var roomId := rooms.order[i];
        if id in rooms.byId[roomId].participants {
          return Some(roomId);
        }
        i := i + 1;
      }
      return None;
    }

    /** `check-room`: reports whether the room exists and whether the caller's
      socket id is its host; an absent room tells the caller to be host. */
    method CheckRoom(socketId: Id, roomId: RoomId) returns (reply: CheckReply)
      ensures roomId !in rooms.byId ==> reply == CheckReply(false, true, None)
      ensures roomId in rooms.byId ==>
        && reply.roomExists
        && (reply.isHost <==> rooms.byId[roomId].host == socketId)
        && reply.participants == Some(rooms.byId[roomId].participants)
    {
      if roomId !in rooms.byId {
        reply := CheckReply(false, true, None);
      } else {
        var room := rooms.byId[roomId];
        reply := CheckReply(true, room.host == socketId, Some(room.participants));
      }
    }

    /** `initialize-host`: the caller is told it is host whether or not the
      room was created. */
    method InitializeHost(roomId: RoomId, userId: Id) returns (events: seq<Event>)
      requires Valid()
      modifies this
      ensures Valid()
      ensures rooms == AfterInitializeHost(old(rooms), roomId, userId)
      ensures events == [RoleChanged(Caller, HostRole)]
    {
      InitializeHostKeepsWellFormed(rooms, roomId, userId);
      if roomId !in rooms.byId {
        rooms := Rooms(rooms.order + [roomId], rooms.byId[roomId := Room(userId, [userId], MaxParticipants)]);
      }
      events := [RoleChanged(Caller, HostRole)];
    }

    /** `join-as-participant`. */
    method JoinAsParticipant(roomId: RoomId, userId: Id) returns (events: seq<Event>)
      requires Valid()
      modifies this
      ensures Valid()
      ensures rooms == AfterJoin(old(rooms), roomId, userId)
      ensures events == match Admit(old(rooms), roomId)
        case NoSuchRoom => [ErrorMessage(Caller, "Room does not exist")]
        case Full => [RoomFull(Caller)]
        case Admitted => [RoleChanged(Caller, ParticipantRole), ParticipantJoined(OthersInRoom(roomId), userId)]
    {
      JoinKeepsWellFormed(rooms, roomId, userId);
      if roomId !in rooms.byId {
        return [ErrorMessage(Caller, "Room does not exist")];
      }
      var room := rooms.byId[roomId];
      if |room.participants| >= room.maxParticipants {
        return [RoomFull(Caller)];
      }
      room := room.(participants := Add(room.participants, userId));
      rooms := rooms.(byId := rooms.byId[roomId := room]);
      events := [RoleChanged(Caller, ParticipantRole), ParticipantJoined(OthersInRoom(roomId), userId)];
    }

    /** `disconnect`: visits every room in key order and removes the
      caller's socket id from each that holds it. */
    method Disconnect(socketId: Id) returns (events: seq<Event>)
      requires Valid()
      modifies this
      ensures Valid()
      ensures rooms == AfterDisconnect(old(rooms), socketId)
      ensures events == SweepEvents(old(rooms).order, old(rooms).byId, socketId)
    {
      ghost var t0 := rooms;
      var keys := rooms.order;
      events := [];
      SweepStart(t0, socketId);
      var i := 0;
      while i < |keys|
        invariant 0 <= i <= |keys|
        invariant rooms == SweptPrefix(t0, socketId, i)
        invariant events == SweepEvents(keys[..i], t0.byId, socketId)
      {
        var roomId := keys[i];
        SweepEventsStep(keys, t0.byId, socketId, i);
        SweepStep(t0, socketId, i);
        var more := SweepRoomAt(socketId, roomId);
        events := events + more;
        i := i + 1;
      }
      assert keys[..i] == keys;
      SweepEnd(t0, socketId);
      DisconnectKeepsWellFormed(t0, socketId);
    }

    /** One pass of the disconnect loop, over the room `roomId`. */
    method SweepRoomAt(socketId: Id, roomId: RoomId) returns (events: seq<Event>)
      requires roomId in rooms.byId
      modifies this
      ensures var room := old(rooms).byId[roomId];
        if Survives(room, socketId) then
          rooms == Rooms(old(rooms).order, old(rooms).byId[roomId := SweepRoom(room, socketId)])
        else
          rooms == Rooms(Delete(old(rooms).order, roomId), old(rooms).byId - {roomId})
      ensures events == RoomSweepEvents(roomId, old(rooms).byId[roomId], socketId)
    {
      events := [];
      var room := rooms.byId[roomId];
      if socketId in room.participants {
        room := room.(participants := Delete(room.participants, socketId));
        if room.host == socketId && |room.participants| > 0 {
          var newHost := room.participants[0];
          room := room.(host := newHost);
          events := events + [HostChanged(InRoom(roomId), newHost), RoleChanged(ToId(newHost), HostRole)];
        }
        if |room.participants| == 0 {
          rooms := Rooms(Delete(rooms.order, roomId), rooms.byId - {roomId});
        } else {
          rooms := rooms.(byId := rooms.byId[roomId := room]);
          events := events + [ParticipantLeft(InRoom(roomId), socketId)];
        }
      }
    }

    /** `mute-participant`: only the host of the caller's room may mute;
      nothing is stored. */
    method MuteParticipant(socketId: Id, targetUserId: Id) returns (events: seq<Event>)
      requires Valid()
      ensures var f := UserRoom(rooms, socketId);
        events == if f.Some? && rooms.byId[f.value].host == socketId
          then [ParticipantMuted(InRoom(f.value), targetUserId)] else []
    {
      events := [];
      var found := FindUserRoom(socketId);
      if found.Some? && rooms.byId[found.value].host == socketId {
        events := [ParticipantMuted(InRoom(found.value), targetUserId)];
      }
    }

    /** `unmute-participant`: as `mute-participant`. */
    method UnmuteParticipant(socketId: Id, targetUserId: Id) returns (events: seq<Event>)
      requires Valid()
      ensures var f := UserRoom(rooms, socketId);
        events == if f.Some? && rooms.byId[f.value].host == socketId
          then [ParticipantUnmuted(InRoom(f.value), targetUserId)] else []
    {
      events := [];
      var found := FindUserRoom(socketId);
      if found.Some? && rooms.byId[found.value].host == socketId {
        events := [ParticipantUnmuted(InRoom(found.value), targetUserId)];
      }
    }

    /** `remove-participant`: the host of the caller's room deletes the
      target from that room; no re-election, no cleanup. */
    method RemoveParticipant(socketId: Id, targetUserId: Id) returns (events: seq<Event>)
      requires Valid()
      modifies this
      ensures Valid()
      ensures var f := UserRoom(old(rooms), socketId);
        if f.Some? && old(rooms).byId[f.value].host == socketId then
          && rooms == AfterRemoval(old(rooms), f.value, targetUserId)
          && events == [RemovedFromRoom(ToId(targetUserId)), ParticipantRemoved(InRoom(f.value), targetUserId)]
        else rooms == old(rooms) && events == []
    {
      events := [];
      var found := FindUserRoom(socketId);
      if found.Some? && rooms.byId[found.value].host == socketId {
        var roomId := found.value;
        RemovalKeepsWellFormed(rooms, roomId, targetUserId);
        var room := rooms.byId[roomId];
        room := room.(participants := Delete(room.participants, targetUserId));
        rooms := rooms.(byId := rooms.byId[roomId := room]);
        events := [RemovedFromRoom(ToId(targetUserId)), ParticipantRemoved(InRoom(roomId), targetUserId)];
      }
    }

    /** `end-meeting`: only the room's host may end it; the room is deleted. */
    method EndMeeting(socketId: Id, roomId: RoomId) returns (events: seq<Event>)
      requires Valid()
      modifies this
      ensures Valid()
      ensures if roomId in old(rooms).byId && old(rooms).byId[roomId].host == socketId then
          rooms == AfterEndMeeting(old(rooms), roomId) && events == [MeetingEnded(InRoom(roomId))]
        else rooms == old(rooms) && events == []
    {
      events := [];
      if roomId in rooms.byId && rooms.byId[roomId].host == socketId {
        EndMeetingKeepsWellFormed(rooms, roomId);
        events := [MeetingEnded(InRoom(roomId))];
        rooms := Rooms(Delete(rooms.order, roomId), rooms.byId - {roomId});
      }
    }

    /** `toggle-mute`: relayed to the caller's room, if any; nothing stored. */
    method ToggleMute(socketId: Id, userId: Id, isMuted: bool) returns (events: seq<Event>)
      requires Valid()
      ensures var f := UserRoom(rooms, socketId);
        events == if f.Some? then [MuteStateChanged(InRoom(f.value), userId, isMuted)] else []
    {
      events := [];
      var found := FindUserRoom(socketId);
      if found.Some? {
        events := [MuteStateChanged(InRoom(found.value), userId, isMuted)];
      }
    }

    /** `toggle-video`: relayed to the caller's room, if any; nothing stored. */
    method ToggleVideo(socketId: Id, userId: Id, isVideoEnabled: bool) returns (events: seq<Event>)
      requires Valid()
      ensures var f := UserRoom(rooms, socketId);
        events == if f.Some? then [VideoStateChanged(InRoom(f.value), userId, isVideoEnabled)] else []
    {
      events := [];
      var found := FindUserRoom(socketId);
      if found.Some? {
        events := [VideoStateChanged(InRoom(found.value), userId, isVideoEnabled)];
      }
    }

    /** `leave-meeting`: anyone may delete any `userId` from an existing
      room; no re-election, no cleanup. */
    method LeaveMeeting(roomId: RoomId, userId: Id) returns (events: seq<Event>)
      requires Valid()
      modifies this
      ensures Valid()
      ensures rooms == AfterRemoval(old(rooms), roomId, userId)
      ensures events == if roomId in old(rooms).byId then [ParticipantLeft(InRoom(roomId), userId)] else []
    {
      events := [];
      RemovalKeepsWellFormed(rooms, roomId, userId);
      if roomId in rooms.byId {
        var room := rooms.byId[roomId];
        room := room.(participants := Delete(room.participants, userId));
        rooms := rooms.(byId := rooms.byId[roomId := room]);
        events := [ParticipantLeft(InRoom(roomId), userId)];
      }
    }
  }
}
