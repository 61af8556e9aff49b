// The Message document: its schema (type enum and default, required
// sender, optional room and conversation references, readers, timestamps)
// and what `Message.create` does with a set of fields: validate them
// against the schema, then insert, which may still fail in the store.
module Messages {
  import opened Common

  datatype MessageType = Text | Image | Video | File | System

  /** The enum's string values, in schema order. */
  const TypeNames: seq<string> := ["text", "image", "video", "file", "system"]

  function TypeName(t: MessageType): (s: string)
    ensures s in TypeNames
  {
    match t
    case Text => "text"
    case Image => "image"
    case Video => "video"
    case File => "file"
    case System => "system"
  }

  /** Mongoose's enum validator: a string is accepted iff it is one of the
      five names, and then it stands for that type. */
  function ParseType(s: string): (r: Option<MessageType>)
    ensures r.Some? <==> s in TypeNames
    ensures r.Some? ==> TypeName(r.value) == s
  {
    if s == "text" then Some(Text)
    else if s == "image" then Some(Image)
    else if s == "video" then Some(Video)
    else if s == "file" then Some(File)
    else if s == "system" then Some(System)
    else None
  }

  lemma TypeNameRoundTrip(t: MessageType)
    ensures ParseType(TypeName(t)) == Some(t)
  {
  }

  datatype Media = Media(url: Option<string>, fileType: Option<string>,
                         originalName: Option<string>, size: Option<int>)

  /** A stored message. `roomId` and `dmId` are both optional. */
  datatype Message = Message(
    id: Id,
    roomId: Option<Id>,
    dmId: Option<Id>,
    senderId: Id,
    msgType: MessageType,
    text: Option<string>,
    media: Option<Media>,
    readBy: seq<Id>,
    createdAt: int,
    updatedAt: int)

  /** The fields handed to `Message.create`; `None` is an undefined field. */
  datatype Draft = Draft(
    roomId: Option<Id>,
    dmId: Option<Id>,
    senderId: Option<Id>,
    msgType: Option<string>,
    text: Option<string>,
    media: Option<Media>)

  /** Why `Message.create` rejected: schema validation (which reports every
      failing path), or the store itself (a cast error, a lost connection). */
  datatype CreateError =
    | ValidationFailed(senderMissing: bool, badType: Option<string>)
    | StoreFailed(reason: string)

  predicate SenderOk(d: Draft) {
    d.senderId.Some?
  }

  predicate TypeOk(d: Draft) {
    d.msgType.None? || ParseType(d.msgType.value).Some?
  }

  /** `Message.create(d)` at time `now`, receiving the fresh identity `id`;
      `storeFailure` is what the database answers when the insert fails. */
  function Create(d: Draft, id: Id, now: int, storeFailure: Option<string>): (r: Result<Message, CreateError>)
    ensures r.Ok? <==> SenderOk(d) && TypeOk(d) && storeFailure.None?
    ensures !SenderOk(d) || !TypeOk(d) ==>
      r == Err(ValidationFailed(!SenderOk(d), if TypeOk(d) then None else d.msgType))
    ensures SenderOk(d) && TypeOk(d) && storeFailure.Some? ==> r == Err(StoreFailed(storeFailure.value))
    ensures r.Ok? ==>
      var m := r.value;
      && m.id == id
      && m.roomId == d.roomId && m.dmId == d.dmId
      && Some(m.senderId) == d.senderId
      && m.msgType == (if d.msgType.None? then Text else ParseType(d.msgType.value).value)
      && m.text == d.text && m.media == d.media
      && m.readBy == []
      && m.createdAt == now && m.updatedAt == now
  {
    if !SenderOk(d) || !TypeOk(d) then
      Err(ValidationFailed(!SenderOk(d), if TypeOk(d) then None else d.msgType))
    else if storeFailure.Some? then
      Err(StoreFailed(storeFailure.value))
    else
      var t := if d.msgType.None? then Text else ParseType(d.msgType.value).value;
      Ok(Message(id, d.roomId, d.dmId, d.senderId.value, t, d.text, d.media, [], now, now))
  }

  /** The schema does not insist on exactly one parent: a message with a
      sender and neither a room nor a conversation is stored. */
  lemma ParentlessMessageAccepted(sender: Id, id: Id, now: int)
    ensures Create(Draft(None, None, Some(sender), None, None, None), id, now, None).Ok?
  {
  }

  /** ... and so is one that names both. */
  lemma DoubleParentMessageAccepted(room: Id, dm: Id, sender: Id, id: Id, now: int)
    ensures var r := Create(Draft(Some(room), Some(dm), Some(sender), None, None, None), id, now, None);
      r.Ok? && r.value.roomId == Some(room) && r.value.dmId == Some(dm)
  {
  }
}
