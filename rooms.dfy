// The room routes: listing the rooms a user can see, creating a room with
// a unique name, joining (private rooms only for members) and leaving,
// looking one up, reading a page of its history, and clearing its messages.
module Rooms {
  import opened Common
  import opened Messages
  import opened Documents
  import opened Chronology

  const NameRequired := "Name required"
  const NameTaken := "Room name already exists"
  const RoomNotFound := "Room not found"
  const InviteRequired := "Private room — invite required"
  const InvalidRoomId := "Invalid room ID"
  const ServerError := "Server Error"
  const ChatCleared := "Chat cleared"
  const DefaultPageSize := 50

  datatype RoomListing = RoomListing(publicRooms: seq<Room>, privateRooms: seq<Room>)

  /** GET /api/rooms: every public room, and the private rooms the caller belongs to. */
  function ListRooms(rooms: seq<Room>, caller: Id): (r: RoomListing)
    ensures forall x :: x in r.publicRooms <==> x in rooms && !x.isPrivate
    ensures forall x :: x in r.privateRooms <==> x in rooms && x.isPrivate && caller in x.members
  {
    RoomListing(Filter(rooms, (x: Room) => !x.isPrivate),
                Filter(rooms, (x: Room) => x.isPrivate && caller in x.members))
  }

  /** Both lists keep the table's order, and each room appears in them as
      often as it is stored. */
  lemma ListRoomsKeepsOrder(rooms: seq<Room>, caller: Id)
    ensures IsSubsequence(ListRooms(rooms, caller).publicRooms, rooms)
    ensures IsSubsequence(ListRooms(rooms, caller).privateRooms, rooms)
  {
    FilterIsSubsequence(rooms, (x: Room) => !x.isPrivate);
    FilterIsSubsequence(rooms, (x: Room) => x.isPrivate && caller in x.members);
  }

  predicate NameUsed(rooms: seq<Room>, name: string) {
    exists i :: 0 <= i < |rooms| && rooms[i].name == name
  }

  ghost predicate NamesUnique(rooms: seq<Room>) {
    forall i, j :: 0 <= i < j < |rooms| ==> rooms[i].name != rooms[j].name
  }

  /** POST /api/rooms: a missing name or one some room already has is refused
      and the table is left as it was; otherwise the creator becomes owner,
      sole admin and sole member of a room appended to the table. */
  method CreateRoom(db: Db, caller: Id, name: string, description: Option<string>,
                    category: Option<string>, isPrivate: bool, newId: Id) returns (r: Reply<Room>)
    modifies db`rooms
    ensures name == "" ==> r == Fail(400, NameRequired) && db.rooms == old(db.rooms)
    ensures name != "" && NameUsed(old(db.rooms), name) ==> r == Fail(400, NameTaken) && db.rooms == old(db.rooms)
    ensures name != "" && !NameUsed(old(db.rooms), name) ==>
      && r.Success?
      && r.body == Room(newId, name, description, category, isPrivate, caller, [caller], [caller])
      && db.rooms == old(db.rooms) + [r.body]
  {
    if name == "" {
      return Fail(400, NameRequired);
    }
    var existing := FindFirst(db.rooms, (x: Room) => x.name == name);
    if existing.Some? {
      return Fail(400, NameTaken);
    }
    var room := Room(newId, name, description, category, isPrivate, caller, [caller], [caller]);
    db.rooms := db.rooms + [room];
    r := Success(room);
  }

  /** Creation only ever adds a name no room has, so names stay unique. */
  lemma CreateKeepsNamesUnique(rooms: seq<Room>, room: Room)
    requires NamesUnique(rooms) && !NameUsed(rooms, room.name)
    ensures NamesUnique(rooms + [room])
  {
    var after := rooms + [room];
    forall i, j | 0 <= i < j < |after| ensures after[i].name != after[j].name {
      if j == |rooms| {
        assert after[i] == rooms[i];
      }
    }
  }

  /** Changing a room's members keeps room names unique. */
  lemma MembershipChangeKeepsNamesUnique(rooms: seq<Room>, i: nat, members: seq<Id>)
    requires NamesUnique(rooms) && i < |rooms|
    ensures NamesUnique(rooms[i := rooms[i].(members := members)])
  {
    var after := rooms[i := rooms[i].(members := members)];
    forall a, b | 0 <= a < b < |after| ensures after[a].name != after[b].name {
      assert after[a].name == rooms[a].name && after[b].name == rooms[b].name;
    }
  }

  /** The member list after `caller` joins: unchanged for a member, the
      caller appended once at the end otherwise. */
  function JoinMembers(members: seq<Id>, caller: Id): (r: seq<Id>)
    ensures caller in r
    ensures members <= r
    ensures multiset(r)[caller] == if caller in members then multiset(members)[caller] else 1
    ensures forall x :: x != caller ==> multiset(r)[x] == multiset(members)[x]
  {
    if caller in members then members else members + [caller]
  }

  /** Joining twice is joining once. */
  lemma JoinMembersIdempotent(members: seq<Id>, caller: Id)
    ensures JoinMembers(JoinMembers(members, caller), caller) == JoinMembers(members, caller)
  {
  }

  /** The member list after `caller` leaves: every occurrence of the caller
      removed, everyone else kept in order. */
  function LeaveMembers(members: seq<Id>, caller: Id): (r: seq<Id>)
    ensures caller !in r
    ensures forall x :: x != caller ==> multiset(r)[x] == multiset(members)[x]
    ensures IsSubsequence(r, members)
  {
    var p := (m: Id) => m != caller;
    forall x ensures multiset(Filter(members, p))[x] == if p(x) then multiset(members)[x] else 0 {
      FilterMultiplicity(members, p, x);
    }
    FilterIsSubsequence(members, p);
    Filter(members, p)
  }

  /** Leaving a room one is not in changes nothing. */
  lemma LeaveAsNonMember(members: seq<Id>, caller: Id)
    requires caller !in members
    ensures LeaveMembers(members, caller) == members
  {
    FilterAllPass(members, (m: Id) => m != caller);
  }

  function FindRoom(rooms: seq<Room>, id: Id): Option<nat> {
    FindFirst(rooms, (x: Room) => x.id == id)
  }

  /** GET /api/rooms/:id. */
  function GetRoom(rooms: seq<Room>, id: Id): (r: Reply<Room>)
    ensures r.Fail? <==> forall i :: 0 <= i < |rooms| ==> rooms[i].id != id
    ensures r.Fail? ==> r == Fail(404, RoomNotFound)
    ensures r.Success? ==> r.body in rooms && r.body.id == id
  {
    match FindRoom(rooms, id)
    case None => Fail(404, RoomNotFound)
    case Some(i) => Success(rooms[i])
  }

  /** POST /api/rooms/:id/join: an unknown room is 404; a private room the
      caller is not a member of is 403 and nothing changes; otherwise the
      caller is added (once) and the room as it now is comes back. */
  method JoinRoom(db: Db, roomId: Id, caller: Id) returns (r: Reply<Room>)
    modifies db`rooms
    ensures match FindRoom(old(db.rooms), roomId)
      case None => r == Fail(404, RoomNotFound) && db.rooms == old(db.rooms)
      case Some(i) =>
        var room := old(db.rooms)[i];
        if room.isPrivate && caller !in room.members then
          r == Fail(403, InviteRequired) && db.rooms == old(db.rooms)
        else
          var after := room.(members := JoinMembers(room.members, caller));
          db.rooms == old(db.rooms)[i := after] && r == Success(after)
  {
    var found := FindRoom(db.rooms, roomId);
    if found.None? {
      return Fail(404, RoomNotFound);
    }
    var i := found.value;
    var room := db.rooms[i];
    if room.isPrivate && caller !in room.members {
      return Fail(403, InviteRequired);
    }
    if caller !in room.members {
      room := room.(members := room.members + [caller]);
      db.rooms := db.rooms[i := room];
    }
    r := Success(room);
  }

  /** POST /api/rooms/:id/leave: an unknown room is 404; otherwise the caller
      is filtered out of the members (admins and owner are left alone). */
  method LeaveRoom(db: Db, roomId: Id, caller: Id) returns (r: Reply<string>)
    modifies db`rooms
    ensures match FindRoom(old(db.rooms), roomId)
      case None => r == Fail(404, RoomNotFound) && db.rooms == old(db.rooms)
      case Some(i) =>
        var room := old(db.rooms)[i];
        db.rooms == old(db.rooms)[i := room.(members := LeaveMembers(room.members, caller))]
        && r == Success("Left room")
  {
    var found := FindRoom(db.rooms, roomId);
    if found.None? {
      return Fail(404, RoomNotFound);
    }
    var i := found.value;
    db.rooms := db.rooms[i := db.rooms[i].(members := LeaveMembers(db.rooms[i].members, caller))];
    r := Success("Left room");
  }

  predicate IsHexDigit(c: char) {
    '0' <= c <= '9' || 'a' <= c <= 'f' || 'A' <= c <= 'F'
  }

  /** `/^[0-9a-fA-F]{24}$/`. */
  predicate IsObjectIdHex(s: string) {
    |s| == 24 && forall i :: 0 <= i < |s| ==> IsHexDigit(s[i])
  }

  /** `.limit(parseInt(req.query.limit || 50))` as the store reads it: no
      limit parameter means 50, 0 means no limit, and a negative limit -n
      returns at most n documents. */
  function PageSize(limit: Option<int>): Option<nat> {
    var n := limit.GetOr(DefaultPageSize);
    if n == 0 then None else if n < 0 then Some(-n) else Some(n)
  }

  predicate InPage(m: Message, roomId: Id, before: Option<int>) {
    m.roomId == Some(roomId) && (before.None? || m.createdAt < before.value)
  }

  /** GET /api/rooms/:id/messages?limit&before. */
  function RoomHistory(messages: seq<Message>, roomId: Id, before: Option<int>, limit: Option<int>): Reply<seq<Message>> {
    if !IsObjectIdHex(roomId) then Fail(400, InvalidRoomId)
    else Success(NewestPage(Filter(messages, (m: Message) => InPage(m, roomId, before)), PageSize(limit)))
  }

  /** A malformed id is refused; otherwise the page holds only messages of
      that room older than `before`, at most the page size of them (as many
      as there are, up to it), oldest first, and they are the newest such
      messages: any such message left out is no newer than any on the page. */
  lemma RoomHistoryIsNewestPage(messages: seq<Message>, roomId: Id, before: Option<int>, limit: Option<int>)
    ensures !IsObjectIdHex(roomId) ==> RoomHistory(messages, roomId, before, limit) == Fail(400, InvalidRoomId)
    ensures IsObjectIdHex(roomId) ==>
      var r := RoomHistory(messages, roomId, before, limit);
      var matching := Filter(messages, (m: Message) => InPage(m, roomId, before));
      var cap := PageSize(limit);
      && r.Success?
      && OldestFirst(r.body)
      && multiset(r.body) <= multiset(matching)
      && (forall m :: m in r.body ==> m in messages && InPage(m, roomId, before))
      && |r.body| == (if cap.Some? && cap.value < |matching| then cap.value else |matching|)
      && (forall x, y :: x in multiset(matching) - multiset(r.body) && y in r.body ==> x.createdAt <= y.createdAt)
  {
    if IsObjectIdHex(roomId) {
      var matching := Filter(messages, (m: Message) => InPage(m, roomId, before));
      var page := NewestPage(matching, PageSize(limit));
      NewestPageIsNewest(matching, PageSize(limit));
      forall m | m in page ensures m in messages && InPage(m, roomId, before) {
        assert m in multiset(page);
        assert m in multiset(matching);
      }
    }
  }

  /** DELETE /api/rooms/:id/messages: every message of that room goes, all
      others stay; a store failure is a 500 and deletes nothing. */
  method ClearRoomMessages(db: Db, roomId: Id, storeFailure: bool) returns (r: Reply<string>)
    modifies db`messages
    ensures storeFailure ==> r == Fail(500, ServerError) && db.messages == old(db.messages)
    ensures !storeFailure ==>
      r == Success(ChatCleared) && db.messages == Filter(old(db.messages), (m: Message) => m.roomId != Some(roomId))
  {
    if storeFailure {
      return Fail(500, ServerError);
    }
    db.messages := Filter(db.messages, (m: Message) => m.roomId != Some(roomId));
    r := Success(ChatCleared);
  }

  /** Clearing a room removes exactly its messages: none of them survive,
      and every other message keeps its multiplicity and its place. */
  lemma ClearRoomRemovesExactly(messages: seq<Message>, roomId: Id)
    ensures var after := Filter(messages, (m: Message) => m.roomId != Some(roomId));
      && (forall m :: m in after ==> m.roomId != Some(roomId))
      && (forall m: Message :: m.roomId != Some(roomId) ==> multiset(after)[m] == multiset(messages)[m])
      && IsSubsequence(after, messages)
  {
    var p := (m: Message) => m.roomId != Some(roomId);
    forall m: Message | m.roomId != Some(roomId) ensures multiset(Filter(messages, p))[m] == multiset(messages)[m] {
      FilterMultiplicity(messages, p, m);
    }
    FilterIsSubsequence(messages, p);
  }
}
