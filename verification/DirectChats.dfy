// The account data that lists the direct chats of each user.
module DirectChats {
  import opened JsCollections

  type DirectMap = JsMap<string, seq<string>>

  function Rooms(m: DirectMap, user: string): seq<string> {
    if user in m.at then m.at[user] else []
  }

  // Every list is free of duplicates.
  ghost predicate Clean(m: DirectMap) {
    m.Valid() && forall u :: NoDup(Rooms(m, u))
  }

  // Adding a room to a user's list, if it is not there.
  function Added(m: DirectMap, user: string, room: string): DirectMap {
    if room in Rooms(m, user) then m else m.Set(user, Rooms(m, user) + [room])
  }

  // Removing a room from the lists of all users but one, among the given ones.
  function Removed(m: DirectMap, users: seq<string>, owner: string, room: string): DirectMap {
    if users == [] then m
    else
      var before := Removed(m, users[..|users| - 1], owner, room);
      var u := users[|users| - 1];
      if u != owner && room in Rooms(m, u) then before.Set(u, Without(Rooms(m, u), room)) else before
  }

  // `createDirectChat` after the room was created. The current user is known: `getUserId` throws
  // otherwise.
  function Create(m: DirectMap, user: string, room: string): DirectMap {
    Added(Removed(m, m.keys, user, room), user, room)
  }

  // `joinDirectChat` after the room was joined.
  function Join(m: DirectMap, user: string, room: string): DirectMap {
    Added(m, user, room)
  }

  lemma {:induction false} RemovedSpec(m: DirectMap, users: seq<string>, owner: string, room: string)
    requires m.Valid() && forall u :: u in users ==> u in m.at
    ensures Removed(m, users, owner, room).keys == m.keys && Removed(m, users, owner, room).Valid()
    ensures forall u :: Rooms(Removed(m, users, owner, room), u) ==
              if u in users && u != owner then Without(Rooms(m, u), room) else Rooms(m, u)
  {
    if users != [] {
      var n := |users| - 1;
      RemovedSpec(m, users[..n], owner, room);
      assert forall u :: u in users <==> u in users[..n] || u == users[n];
      if room !in Rooms(m, users[n]) {
        ExceptNone(Rooms(m, users[n]), {room});
      }
    }
  }

  // What removal does to one more user.
  lemma RemovedSnoc(m: DirectMap, users: seq<string>, u: string, owner: string, room: string)
    ensures var before := Removed(m, users, owner, room);
            Removed(m, users + [u], owner, room) ==
            if u != owner && room in Rooms(m, u) then before.Set(u, Without(Rooms(m, u), room)) else before
  {
    assert (users + [u])[..|users|] == users;
  }

  // Removal changes the map exactly when some list loses a room.
  lemma {:induction false} RemovedChanges(m: DirectMap, users: seq<string>, owner: string, room: string)
    requires m.Valid() && NoDup(users) && forall u :: u in users ==> u in m.at
    ensures Removed(m, users, owner, room) != m <==> exists u :: u in users && u != owner && room in Rooms(m, u)
  {
    hide Removed;
    var r := Removed(m, users, owner, room);
    RemovedSpec(m, users, owner, room);
    if u :| u in users && u != owner && room in Rooms(m, u) {
      FilterLength(Rooms(m, u), room);
      assert Rooms(r, u) != Rooms(m, u);
    } else {
      forall u | u in m.at
        ensures u in r.at && r.at[u] == m.at[u]
      {
        assert u in r.keys;
        if u in users && u != owner {
          ExceptNone(Rooms(m, u), {room});
        }
        assert Rooms(r, u) == Rooms(m, u);
      }
      forall u | u in r.at
        ensures u in m.at
      {
        assert u in r.keys;
      }
      assert r.at == m.at;
    }
  }

  class DirectChatData {
    var content: DirectMap
    var writes: nat

    constructor (content: DirectMap)
      ensures this.content == content && writes == 0
    {
      this.content := content;
      writes := 0;
    }

    // The loop over the other users' lists.
    method RemoveFromOthers(userId: string, roomId: string) returns (roomMap: DirectMap, modified: bool)
      requires content.Valid()
      ensures roomMap == Removed(content, content.keys, userId, roomId)
      ensures modified <==> roomMap != content
    {
      hide Removed, NoDup;
      roomMap, modified := content, false;
      var users := content.keys;
      NothingRemoved(content, userId, roomId);
      for i := 0 to |users|
        invariant roomMap == Removed(content, users[..i], userId, roomId)
        invariant modified <==> exists k :: 0 <= k < i && users[k] != userId && roomId in Rooms(content, users[k])
      {
        var otherUserId := users[i];
        assert users[..i + 1] == users[..i] + [otherUserId];
        assert otherUserId in users;
        RemovedSnoc(content, users[..i], otherUserId, userId, roomId);
        if otherUserId != userId {
          var roomList := content.at[otherUserId];
          var newRoomList := Without(roomList, roomId);
          FilterLength(roomList, roomId);
          if |newRoomList| != |roomList| {
            roomMap := roomMap.Set(otherUserId, newRoomList);
            modified := true;
          }
        }
      }
      assert users[..|users|] == users;
      RemovedChanges(content, users, userId, roomId);
    }

    method CreateDirectChat(userId: string, roomId: string)
      requires content.Valid() && userId != ""
      modifies this
      ensures content == Create(old(content), userId, roomId)
      ensures writes == old(writes) + if content == old(content) then 0 else 1
    {
      hide Removed;
      var roomMap, modified := RemoveFromOthers(userId, roomId);
      var userRoomList := Rooms(roomMap, userId);
      if roomId !in userRoomList {
        AddedIsNew(content, userId, roomId);
        roomMap := roomMap.Set(userId, userRoomList + [roomId]);
        modified := true;
      }
      if modified {
        content := roomMap;
        writes := writes + 1;
      }
    }

    method JoinDirectChat(userId: string, chatId: string)
      requires content.Valid()
      modifies this
      ensures content == Join(old(content), userId, chatId)
      ensures writes == old(writes) + if chatId in Rooms(old(content), userId) then 0 else 1
    {
      var userRoomList := Rooms(content, userId);
      if chatId in userRoomList {
        return;
      }
      content := content.Set(userId, userRoomList + [chatId]);
      writes := writes + 1;
    }
  }

  lemma NothingRemoved(m: DirectMap, owner: string, room: string)
    ensures Removed(m, m.keys[..0], owner, room) == m
  {
  }

  lemma FilterLength(rooms: seq<string>, room: string)
    ensures |Without(rooms, room)| != |rooms| <==> room in rooms
  {
    if room in rooms {
      assert room in {room};
      ExceptSize(rooms, {room});
    } else {
      ExceptNone(rooms, {room});
    }
  }

  // The list of the current user is not touched by the removal, so adding to it changes the map.
  lemma AddedIsNew(m: DirectMap, user: string, room: string)
    requires m.Valid() && room !in Rooms(Removed(m, m.keys, user, room), user)
    ensures Create(m, user, room) != m
  {
    RemovedSpec(m, m.keys, user, room);
    assert room in Rooms(Create(m, user, room), user);
  }

  // A list that lost or gained a room keeps its other rooms in their places.
  lemma OneList(rooms: seq<string>, room: string)
    requires NoDup(rooms)
    ensures NoDup(Without(rooms, room)) && room !in Without(rooms, room)
    ensures Without(Without(rooms, room), room) == Without(rooms, room)
    ensures room !in rooms ==> NoDup(rooms + [room]) && Without(rooms + [room], room) == Without(rooms, room)
  {
    ExceptNoDup(rooms, {room});
    InExcept(rooms, {room});
    ExceptNone(Without(rooms, room), {room});
    ExceptAppend(rooms, room, {room});
    assert Without(rooms, room) + [] == Without(rooms, room);
  }

  lemma AddedRooms(m: DirectMap, user: string, room: string, u: string)
    ensures Rooms(Added(m, user, room), u) ==
            if u == user && room !in Rooms(m, user) then Rooms(m, user) + [room] else Rooms(m, u)
    ensures m.Valid() ==> Added(m, user, room).Valid()
  {
  }

  // After a create the room is listed under the current user and nobody else; every list keeps its
  // other rooms in their places.
  lemma CreateLists(m: DirectMap, user: string, room: string)
    requires Clean(m)
    ensures Clean(Create(m, user, room))
    ensures forall u :: room in Rooms(Create(m, user, room), u) <==> u == user
    ensures forall u :: Without(Rooms(Create(m, user, room), u), room) == Without(Rooms(m, u), room)
  {
    hide NoDup, Except, Without, Removed, Added, Rooms;
    var r := Removed(m, m.keys, user, room);
    forall u
      ensures NoDup(Rooms(Create(m, user, room), u))
      ensures room in Rooms(Create(m, user, room), u) <==> u == user
      ensures Without(Rooms(Create(m, user, room), u), room) == Without(Rooms(m, u), room)
    {
      OneList(Rooms(m, u), room);
      RemovedOwner(m, user, room, u);
      AddedRooms(r, user, room, u);
    }
    RemovedOwner(m, user, room, user);
    AddedRooms(r, user, room, user);
  }

  // After a join the room is listed under the joining user; nothing else changes.
  lemma JoinLists(m: DirectMap, user: string, room: string)
    requires Clean(m)
    ensures Clean(Join(m, user, room))
    ensures room in Rooms(Join(m, user, room), user)
    ensures forall u :: u != user ==> Rooms(Join(m, user, room), u) == Rooms(m, u)
    ensures Without(Rooms(Join(m, user, room), user), room) == Without(Rooms(m, user), room)
  {
    hide NoDup, Except, Without, Added, Rooms;
    OneList(Rooms(m, user), room);
    forall u
      ensures Rooms(Join(m, user, room), u) ==
              if u == user && room !in Rooms(m, user) then Rooms(m, user) + [room] else Rooms(m, u)
      ensures Join(m, user, room).Valid()
    {
      AddedRooms(m, user, room, u);
    }
  }

  // A user without an entry has no rooms to lose.
  lemma RemovedOwner(m: DirectMap, user: string, room: string, u: string)
    requires m.Valid()
    ensures Rooms(Removed(m, m.keys, user, room), u) == if u == user then Rooms(m, u) else Without(Rooms(m, u), room)
    ensures Removed(m, m.keys, user, room).Valid()
  {
    RemovedSpec(m, m.keys, user, room);
    if u !in m.at {
      assert Without([], room) == [];
    }
  }

  datatype Action = CreateChat(user: string, room: string) | JoinChat(user: string, room: string)

  function Step(m: DirectMap, a: Action): DirectMap {
    match a
    case CreateChat(user, room) => Create(m, user, room)
    case JoinChat(user, room) => Join(m, user, room)
  }

  function After(m: DirectMap, run: seq<Action>): DirectMap {
    if run == [] then m else Step(After(m, run[..|run| - 1]), run[|run| - 1])
  }

  function RoomsOf(run: seq<Action>): set<string> {
    set a | a in run :: a.room
  }

  // Over any run the lists stay free of duplicates, and the rooms the run does not name keep their
  // places in every list.
  lemma {:induction false} RunKeepsOtherRooms(m: DirectMap, run: seq<Action>)
    requires Clean(m)
    ensures Clean(After(m, run))
    ensures forall u :: Except(Rooms(After(m, run), u), RoomsOf(run)) == Except(Rooms(m, u), RoomsOf(run))
  {
    hide Create, Join, Clean;
    if run != [] {
      var n := |run| - 1;
      var before := After(m, run[..n]);
      RunKeepsOtherRooms(m, run[..n]);
      var a := run[n];
      if a.CreateChat? {
        CreateLists(before, a.user, a.room);
      } else {
        JoinLists(before, a.user, a.room);
      }
      assert RoomsOf(run) == RoomsOf(run[..n]) + {a.room} by {
        assert run == run[..n] + [a];
      }
      forall u
        ensures Except(Rooms(After(m, run), u), RoomsOf(run)) == Except(Rooms(m, u), RoomsOf(run))
      {
        LeaveOut(Rooms(After(m, run), u), Rooms(before, u), a.room, RoomsOf(run[..n]));
        LeaveOutMore(Rooms(before, u), Rooms(m, u), a.room, RoomsOf(run[..n]));
      }
    }
  }

  // Lists that agree without one room agree without more rooms.
  lemma LeaveOut(a: seq<string>, b: seq<string>, room: string, rooms: set<string>)
    requires Without(a, room) == Without(b, room)
    ensures Except(a, rooms + {room}) == Except(b, rooms + {room})
  {
    ExceptTwice(a, {room}, rooms);
    ExceptTwice(b, {room}, rooms);
    assert rooms + {room} == {room} + rooms;
  }

  lemma LeaveOutMore(a: seq<string>, b: seq<string>, room: string, rooms: set<string>)
    requires Except(a, rooms) == Except(b, rooms)
    ensures Except(a, rooms + {room}) == Except(b, rooms + {room})
  {
    ExceptTwice(a, rooms, {room});
    ExceptTwice(b, rooms, {room});
  }
}
