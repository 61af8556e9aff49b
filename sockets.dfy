// The real-time layer: one server object holding the `onlineUsers` presence
// map, the open sockets with the user id each one claimed at handshake, the
// channels ("room_<id>", "dm_<id>") each socket has joined, and an outbox
// of the events emitted. Each event handler is a method; sending a chat
// message creates a Message in the store, then broadcasts and acknowledges.
module Sockets {
  import opened Common
  import opened Messages
  import opened Documents

  type SocketId = string

  /** Who an emission is addressed to. */
  datatype Target =
    | Everyone                                              // io.emit
    | Channel(name: string)                                 // io.to(name).emit
    | ChannelExceptSender(name: string, sender: SocketId)   // socket.to(name).emit

  datatype Event =
    | UserOnline(userId: Id)
    | UserOffline(userId: Id)
    | SystemMessage(text: string)
    | RoomMessageReceive(message: Message)
    | DmMessageReceive(message: Message)
    | TypingStart(user: Option<string>)
    | TypingStop(user: Option<string>)

  datatype Emission = Emission(target: Target, event: Event)

  /** The reply passed to the sender's acknowledgement callback. */
  datatype Ack = AckOk(message: Message) | AckFailed(error: CreateError)

  /** The payload of `room_message_send` ({roomId, ...}) or `dm_message_send`
      ({dmId, ...}); `parentId` is the room or conversation id. */
  datatype SendPayload = SendPayload(
    parentId: Option<Id>,
    senderId: Option<Id>,
    text: Option<string>,
    msgType: Option<string>,
    media: Option<Media>)

  const JoinNotice := "A user joined the room"
  const LeaveNotice := "A user left the room"

  /** How a template literal prints an id that may be undefined. */
  function Interpolate(o: Option<string>): string {
    if o.Some? then o.value else "undefined"
  }

  function RoomChannel(roomId: Option<string>): (c: string)
    ensures |c| >= 5 && c[..5] == "room_"
  {
    "room_" + Interpolate(roomId)
  }

  function DmChannel(dmId: Option<string>): (c: string)
    ensures |c| >= 3 && c[..3] == "dm_"
  {
    "dm_" + Interpolate(dmId)
  }

  /** A room channel is never a conversation channel, whatever the ids. */
  lemma RoomAndDmChannelsDiffer(roomId: Option<string>, dmId: Option<string>)
    ensures RoomChannel(roomId) != DmChannel(dmId)
  {
    assert RoomChannel(roomId)[0] == 'r';
    assert DmChannel(dmId)[0] == 'd';
  }

  /** Leaving a room channel never takes a socket out of a conversation channel. */
  lemma LeaveRoomKeepsDmChannels(channels: set<string>, roomId: Option<string>, dmId: Option<string>)
    requires DmChannel(dmId) in channels
    ensures DmChannel(dmId) in channels - {RoomChannel(roomId)}
  {
    RoomAndDmChannelsDiffer(roomId, dmId);
  }

  /** `payload.type || 'text'`. */
  function SentType(t: Option<string>): string {
    if Truthy(t) then t.value else "text"
  }

  function RoomDraft(p: SendPayload): Draft {
    Draft(p.parentId, None, p.senderId, Some(SentType(p.msgType)), p.text, p.media)
  }

  function DmDraft(p: SendPayload): Draft {
    Draft(None, p.parentId, p.senderId, Some(SentType(p.msgType)), p.text, p.media)
  }

  /** A message sent over a socket is stored with the payload's type when it
      is truthy and "text" otherwise, under the room (or conversation) the
      payload names; a truthy type outside the enum makes creation fail. */
  lemma SentMessageShape(p: SendPayload, id: Id, now: int, storeFailure: Option<string>)
    ensures var r := Create(RoomDraft(p), id, now, storeFailure);
      && (r.Ok? ==>
            r.value.roomId == p.parentId && r.value.dmId == None && TypeName(r.value.msgType) == SentType(p.msgType))
      && (Truthy(p.msgType) && p.msgType.value !in TypeNames ==> r.Err?)
      && (!Truthy(p.msgType) && p.senderId.Some? && storeFailure.None? ==> r.Ok? && r.value.msgType == Text)
    ensures var r := Create(DmDraft(p), id, now, storeFailure);
      && (r.Ok? ==>
            r.value.dmId == p.parentId && r.value.roomId == None && TypeName(r.value.msgType) == SentType(p.msgType))
      && (Truthy(p.msgType) && p.msgType.value !in TypeNames ==> r.Err?)
      && (!Truthy(p.msgType) && p.senderId.Some? && storeFailure.None? ==> r.Ok? && r.value.msgType == Text)
  {
  }

  /** `User.findByIdAndUpdate(id, {online, lastSeen})`: the first user with
      that id gets the new flag (and last-seen time, when one is given);
      every other user is untouched; an unknown id changes nothing. */
  function SetPresence(users: seq<User>, id: Id, online: bool, lastSeen: Option<int>): (r: seq<User>)
    ensures |r| == |users|
    ensures forall j :: 0 <= j < |users| && users[j].id != id ==> r[j] == users[j]
    ensures forall j :: 0 <= j < |users| && users[j].id == id && (forall k :: 0 <= k < j ==> users[k].id != id) ==>
      r[j] == users[j].(online := online, lastSeen := if lastSeen.Some? then lastSeen else users[j].lastSeen)
    ensures forall k, j :: 0 <= k < j < |users| && users[k].id == id ==> r[j] == users[j]
    ensures (exists j :: 0 <= j < |users| && users[j].id == id) ==>
      exists j :: 0 <= j < |users| && users[j].id == id && r[j].online == online
  {
    match FindFirst(users, (u: User) => u.id == id)
    case None => users
    case Some(i) => users[i := users[i].(online := online, lastSeen := if lastSeen.Some? then lastSeen else users[i].lastSeen)]
  }

  class SocketServer {
    const db: Db
    /** `onlineUsers`: user id -> the id of the socket that last connected as that user. */
    var onlineUsers: map<Id, SocketId>
    /** The open sockets, each with the `userId` of its handshake query. */
    var sessions: map<SocketId, Option<Id>>
    /** The channels each open socket has joined. */
    var joined: map<SocketId, set<string>>
    /** Every event emitted so far, in order. */
    var outbox: seq<Emission>

    ghost predicate Valid()
      reads this
    {
      joined.Keys == sessions.Keys
    }

    constructor (db: Db)
      ensures Valid()
      ensures this.db == db
      ensures onlineUsers == map[] && sessions == map[] && joined == map[] && outbox == []
    {
      this.db := db;
      onlineUsers, sessions, joined, outbox := map[], map[], map[], [];
    }

    /** The sockets an emission reaches. */
    function Audience(t: Target): (r: set<SocketId>)
      reads this
      requires Valid()
      ensures r <= sessions.Keys
      ensures t.Everyone? ==> r == sessions.Keys
      ensures t.ChannelExceptSender? ==> t.sender !in r
      ensures !t.Everyone? ==> forall s :: s in r <==> s in joined && t.name in joined[s] && !(t.ChannelExceptSender? && s == t.sender)
    {
      match t
      case Everyone => sessions.Keys
      case Channel(c) => set s | s in joined && c in joined[s]
      case ChannelExceptSender(c, x) => (set s | s in joined && c in joined[s]) - {x}
    }

    /** `io.on('connection')`: a socket whose handshake carries a truthy
        `userId` becomes that user's entry in `onlineUsers` (replacing any
        earlier socket of the same user), marks the user online and announces
        it to everyone; without one, nothing but the socket itself is added. */
    method Connect(sid: SocketId, userId: Option<Id>)
      requires Valid() && sid !in sessions
      modifies this, db`users
      ensures Valid()
      ensures sessions == old(sessions)[sid := userId] && joined == old(joined)[sid := {}]
      ensures Truthy(userId) ==>
        && onlineUsers == old(onlineUsers)[userId.value := sid]
        && db.users == SetPresence(old(db.users), userId.value, true, None)
        && outbox == old(outbox) + [Emission(Everyone, UserOnline(userId.value))]
      ensures !Truthy(userId) ==>
        onlineUsers == old(onlineUsers) && db.users == old(db.users) && outbox == old(outbox)
    {
      sessions := sessions[sid := userId];
      joined := joined[sid := {}];
      if Truthy(userId) {
        var uid := userId.value;
        onlineUsers := onlineUsers[uid := sid];
        db.users := SetPresence(db.users, uid, true, None);
        outbox := outbox + [Emission(Everyone, UserOnline(uid))];
      }
    }

    /** `join_room`: joins "room_" + roomId only for a truthy roomId, but
        always tells the rest of that channel that a user joined. */
    method JoinRoom(sid: SocketId, roomId: Option<Id>)
      requires Valid() && sid in sessions
      modifies this`joined, this`outbox
      ensures Valid()
      ensures joined == if Truthy(roomId) then old(joined)[sid := old(joined)[sid] + {RoomChannel(roomId)}] else old(joined)
      ensures outbox == old(outbox) + [Emission(ChannelExceptSender(RoomChannel(roomId), sid), SystemMessage(JoinNotice))]
    {
      if Truthy(roomId) {
        joined := joined[sid := joined[sid] + {RoomChannel(roomId)}];
      }
      outbox := outbox + [Emission(ChannelExceptSender(RoomChannel(roomId), sid), SystemMessage(JoinNotice))];
    }

    /** `leave_room`: leaves "room_" + roomId only for a truthy roomId, and
        always tells that channel that a user left. */
    method LeaveRoom(sid: SocketId, roomId: Option<Id>)
      requires Valid() && sid in sessions
      modifies this`joined, this`outbox
      ensures Valid()
      ensures joined == if Truthy(roomId) then old(joined)[sid := old(joined)[sid] - {RoomChannel(roomId)}] else old(joined)
      ensures outbox == old(outbox) + [Emission(ChannelExceptSender(RoomChannel(roomId), sid), SystemMessage(LeaveNotice))]
    {
      if Truthy(roomId) {
        joined := joined[sid := joined[sid] - {RoomChannel(roomId)}];
      }
      outbox := outbox + [Emission(ChannelExceptSender(RoomChannel(roomId), sid), SystemMessage(LeaveNotice))];
    }

    /** `join_dm`: joins "dm_" + dmId for a truthy dmId. There is no handler
        that leaves a conversation channel. */
    method JoinDm(sid: SocketId, dmId: Option<Id>)
      requires Valid() && sid in sessions
      modifies this`joined
      ensures Valid()
      ensures joined == if Truthy(dmId) then old(joined)[sid := old(joined)[sid] + {DmChannel(dmId)}] else old(joined)
    {
      if Truthy(dmId) {
        joined := joined[sid := joined[sid] + {DmChannel(dmId)}];
      }
    }

    /** `room_message_send`: create the message; on success store it,
        broadcast it to the room's channel and acknowledge it; on failure
        broadcast nothing and acknowledge the error. Without an ack callback
        nothing is acknowledged. */
    method RoomMessageSend(sid: SocketId, payload: SendPayload, hasAck: bool,
                           newId: Id, now: int, storeFailure: Option<string>) returns (ack: Option<Ack>)
      requires Valid() && sid in sessions
      modifies this`outbox, db`messages
      ensures match Create(RoomDraft(payload), newId, now, storeFailure)
        case Ok(m) =>
          && db.messages == old(db.messages) + [m]
          && outbox == old(outbox) + [Emission(Channel(RoomChannel(payload.parentId)), RoomMessageReceive(m))]
          && ack == (if hasAck then Some(AckOk(m)) else None)
        case Err(e) =>
          && db.messages == old(db.messages)
          && outbox == old(outbox)
          && ack == (if hasAck then Some(AckFailed(e)) else None)
    {
      var created := Create(RoomDraft(payload), newId, now, storeFailure);
      match created
      case Ok(m) =>
        db.messages := db.messages + [m];
        outbox := outbox + [Emission(Channel(RoomChannel(payload.parentId)), RoomMessageReceive(m))];
        ack := if hasAck then Some(AckOk(m)) else None;
      case Err(e) =>
        ack := if hasAck then Some(AckFailed(e)) else None;
    }

    /** `dm_message_send`: as for rooms, on the conversation's channel. */
    method DmMessageSend(sid: SocketId, payload: SendPayload, hasAck: bool,
                         newId: Id, now: int, storeFailure: Option<string>) returns (ack: Option<Ack>)
      requires Valid() && sid in sessions
      modifies this`outbox, db`messages
      ensures match Create(DmDraft(payload), newId, now, storeFailure)
        case Ok(m) =>
          && db.messages == old(db.messages) + [m]
          && outbox == old(outbox) + [Emission(Channel(DmChannel(payload.parentId)), DmMessageReceive(m))]
          && ack == (if hasAck then Some(AckOk(m)) else None)
        case Err(e) =>
          && db.messages == old(db.messages)
          && outbox == old(outbox)
          && ack == (if hasAck then Some(AckFailed(e)) else None)
    {
      var created := Create(DmDraft(payload), newId, now, storeFailure);
      match created
      case Ok(m) =>
        db.messages := db.messages + [m];
        outbox := outbox + [Emission(Channel(DmChannel(payload.parentId)), DmMessageReceive(m))];
        ack := if hasAck then Some(AckOk(m)) else None;
      case Err(e) =>
        ack := if hasAck then Some(AckFailed(e)) else None;
    }

    /** `typing_start`: relayed to the rest of the room's channel. */
    method TypingStarted(sid: SocketId, roomId: Option<Id>, user: Option<string>)
      requires Valid() && sid in sessions
      modifies this`outbox
      ensures outbox == old(outbox) + [Emission(ChannelExceptSender(RoomChannel(roomId), sid), TypingStart(user))]
    {
      outbox := outbox + [Emission(ChannelExceptSender(RoomChannel(roomId), sid), TypingStart(user))];
    }

    /** `typing_stop`: relayed to the rest of the room's channel. */
    method TypingStopped(sid: SocketId, roomId: Option<Id>, user: Option<string>)
      requires Valid() && sid in sessions
      modifies this`outbox
      ensures outbox == old(outbox) + [Emission(ChannelExceptSender(RoomChannel(roomId), sid), TypingStop(user))]
    {
      outbox := outbox + [Emission(ChannelExceptSender(RoomChannel(roomId), sid), TypingStop(user))];
    }

    /** `disconnect`: the socket closes and leaves every channel; if it
        connected with a truthy `userId`, that user's presence entry is
        deleted outright (even if another socket of the user is still open),
        the user is marked offline with the current time as last seen, and
        everyone is told. */
    method Disconnect(sid: SocketId, now: int)
      requires Valid() && sid in sessions
      modifies this, db`users
      ensures Valid()
      ensures sessions == old(sessions) - {sid} && joined == old(joined) - {sid}
      ensures var u := old(sessions)[sid];
        Truthy(u) ==>
          && onlineUsers == old(onlineUsers) - {u.value}
          && db.users == SetPresence(old(db.users), u.value, false, Some(now))
          && outbox == old(outbox) + [Emission(Everyone, UserOffline(u.value))]
      ensures var u := old(sessions)[sid];
        !Truthy(u) ==> onlineUsers == old(onlineUsers) && db.users == old(db.users) && outbox == old(outbox)
    {
      var userId := sessions[sid];
      sessions := sessions - {sid};
      joined := joined - {sid};
      if Truthy(userId) {
        var uid := userId.value;
        onlineUsers := onlineUsers - {uid};
        db.users := SetPresence(db.users, uid, false, Some(now));
        outbox := outbox + [Emission(Everyone, UserOffline(uid))];
      }
    }
  }

  /** Two tabs of one user connect, then one of them closes: the user is no
      longer in the presence map although the other tab is still open. */
  method TwoTabsScenario(uid: Id) returns (otherTabOpen: bool, stillListed: bool)
    requires uid != ""
    ensures otherTabOpen && !stillListed
  {
    var db := new Db();
    var server := new SocketServer(db);
    server.Connect("tab1", Some(uid));
    server.Connect("tab2", Some(uid));
    assert server.onlineUsers[uid] == "tab2";
    server.Disconnect("tab1", 1000);
    otherTabOpen := "tab2" in server.sessions;
    stillListed := uid in server.onlineUsers;
  }

  /** A joins room R and sends "hi"; B, also in R, is in the audience of the
      broadcast, and A's acknowledgement carries the stored message. */
  method RoomBroadcastScenario(a: Id, b: Id, room: Id) returns (bReached: bool, ackOk: bool, stored: nat)
    requires a != "" && b != "" && room != ""
    ensures bReached && ackOk && stored == 1
  {
    var db := new Db();
    var server := new SocketServer(db);
    server.Connect("sa", Some(a));
    server.Connect("sb", Some(b));
    server.JoinRoom("sa", Some(room));
    server.JoinRoom("sb", Some(room));
    var payload := SendPayload(Some(room), Some(a), Some("hi"), Some("text"), None);
    var ack := server.RoomMessageSend("sa", payload, true, "m1", 5, None);
    var last := server.outbox[|server.outbox| - 1];
    bReached := "sb" in server.Audience(last.target);
    ackOk := ack.Some? && ack.value.AckOk? && ack.value.message.text == Some("hi");
    stored := |db.messages|;
  }
}
