// The document store: the User, Room and DMConversation records next to
// Message, and the database as four in-memory tables in insertion
// (natural) order, which the route handlers and the socket layer update.
module Documents {
  import opened Common
  import opened Messages

  datatype User = User(
    id: Id,
    username: string,
    email: string,
    passwordHash: string,
    displayName: Option<string>,
    avatarUrl: Option<string>,
    online: bool,
    lastSeen: Option<int>)

  datatype Room = Room(
    id: Id,
    name: string,
    description: Option<string>,
    category: Option<string>,
    isPrivate: bool,
    owner: Id,
    admins: seq<Id>,
    members: seq<Id>)

  datatype DMConversation = DMConversation(id: Id, participants: seq<Id>)

  class Db {
    var users: seq<User>
    var rooms: seq<Room>
    var dms: seq<DMConversation>
    var messages: seq<Message>

    constructor ()
      ensures users == [] && rooms == [] && dms == [] && messages == []
    {
      users, rooms, dms, messages := [], [], [], [];
    }
  }

  predicate UserIdFree(users: seq<User>, id: Id) {
    forall i :: 0 <= i < |users| ==> users[i].id != id
  }

  predicate RoomIdFree(rooms: seq<Room>, id: Id) {
    forall i :: 0 <= i < |rooms| ==> rooms[i].id != id
  }

  predicate DmIdFree(dms: seq<DMConversation>, id: Id) {
    forall i :: 0 <= i < |dms| ==> dms[i].id != id
  }

  predicate MessageIdFree(messages: seq<Message>, id: Id) {
    forall i :: 0 <= i < |messages| ==> messages[i].id != id
  }
}
