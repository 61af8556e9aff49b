# Synaptik chat core in Dafny

This is a model of the logic at the centre of the Synaptik chat application, with proofs about it. The application has a Node/Express/Socket.IO backend over MongoDB and a React frontend.

The backend parts modelled:
- **The document store.** Four in-memory tables (users, rooms, DM conversations, messages) in insertion order, held by the class `Documents.Db`.
- **The Message schema** and what `Message.create` does with a set of fields.
- **The socket layer.** A class holding the `onlineUsers` presence map, the open sockets, the channels each socket joined, and an outbox of emitted events. Each event handler is a method.
- **The REST routes:**
  - rooms: list, create, join, leave, get, paginated history, clear;
  - DMs: list, find-or-create, history, clear;
  - register and login;
  - user search;
  - upload naming, filtering and reply.

The frontend parts modelled:
- **The registration page.** It holds the password rule, the two-step submit, the six code boxes with focus moves and automatic submit, and the resend countdown. It is a class whose fields are the React state.
- **The "Create Room" dialog.** A class with the trim-and-validate submit.

The JavaScript semantics the code depends on are written out in `JsText`:
- the `\s` class and `trim`;
- `replace(/\s+/g, '_')`;
- case-insensitive prefix matching;
- unanchored regular-expression tests;
- UTF-16 `.length`;
- number-to-string.

Replies use `Reply<T> = Success(body) | Fail(status, message)`. Store failures, hashing, token signing, password comparison and the clock are parameters.

## Model

| member | source | states |
|---|---|---|
| Messages.ParseType | backend/src/models/Message.js:8 | the enum accepts exactly the five type names, and an accepted name stands for the type it spells |
| Messages.TypeNameRoundTrip | backend/src/models/Message.js:8 | every type's stored name is read back as that type |
| Messages.Create | backend/src/models/Message.js:4-17 | creation succeeds iff a sender is given, the type (if any) is in the enum and the store accepts; the message keeps the given room, DM, text and media, defaults its type to text, starts with no readers and stamps both timestamps with the current time; validation failures report which paths failed |
| Messages.ParentlessMessageAccepted | backend/src/models/Message.js:5-6 | a message with neither a room nor a conversation is stored |
| Messages.DoubleParentMessageAccepted | backend/src/models/Message.js:5-6 | a message naming both a room and a conversation is stored with both |
| Sockets.RoomChannel | backend/src/sockets/index.js:17 | every room channel name begins with "room_" |
| Sockets.DmChannel | backend/src/sockets/index.js:45 | every conversation channel name begins with "dm_" |
| Sockets.RoomAndDmChannelsDiffer | backend/src/sockets/index.js:44-45 | no room channel is ever a conversation channel, whatever the ids |
| Sockets.LeaveRoomKeepsDmChannels | backend/src/sockets/index.js:21-24 | leaving a room channel never takes a socket out of a conversation channel |
| Sockets.SentMessageShape | backend/src/sockets/index.js:29-56 | a sent message is stored under the payload's room (or conversation) only, with the payload's type when truthy and "text" otherwise; a truthy type outside the enum makes creation fail; without a type, a sender and a working store it succeeds as text |
| Sockets.SetPresence | backend/src/sockets/index.js:12 | updating a user's presence changes only the first user with that id, sets its online flag (and last-seen time when given) and leaves everyone else untouched |
| Sockets.SocketServer.constructor | backend/src/sockets/index.js:6 | the presence map, sockets, channels and outbox start empty |
| Sockets.SocketServer.Audience | backend/src/sockets/index.js:13-18 | an emission reaches only open sockets: for `io.emit` every open socket, otherwise exactly the sockets in the channel, minus the sender for `socket.to` |
| Sockets.SocketServer.Connect | backend/src/sockets/index.js:9-14 | with a truthy user id the presence map sends that user to this socket (replacing any earlier socket), the user is marked online and everyone is told; without one, the presence map, users and outbox are unchanged |
| Sockets.SocketServer.JoinRoom | backend/src/sockets/index.js:16-19 | the socket joins "room_"+id only for a truthy id; the join notice goes to the rest of that channel either way |
| Sockets.SocketServer.LeaveRoom | backend/src/sockets/index.js:21-24 | the socket leaves "room_"+id only for a truthy id; the leave notice goes to that channel either way |
| Sockets.SocketServer.JoinDm | backend/src/sockets/index.js:44-46 | the socket joins "dm_"+id only for a truthy id; nothing else changes |
| Sockets.SocketServer.RoomMessageSend | backend/src/sockets/index.js:26-42 | on successful creation the message is stored, broadcast to the payload room's channel only, and acknowledged with ok; on failure nothing is stored or broadcast and the error is acknowledged; with no ack callback nothing is acknowledged |
| Sockets.SocketServer.DmMessageSend | backend/src/sockets/index.js:48-63 | the same for conversations, on the conversation's channel |
| Sockets.SocketServer.TypingStarted | backend/src/sockets/index.js:65-67 | the typing notice goes to the rest of the room's channel |
| Sockets.SocketServer.TypingStopped | backend/src/sockets/index.js:69-71 | the stop notice goes to the rest of the room's channel |
| Sockets.SocketServer.Disconnect | backend/src/sockets/index.js:73-79 | the socket and its channels go; for an identified socket the user's presence entry is deleted outright, the user is marked offline with last-seen time, and everyone is told |
| Sockets.TwoTabsScenario | backend/src/sockets/index.js:73-78 | two sockets of one user connect and one closes: the other is still open, yet the user is no longer in the presence map |
| Sockets.RoomBroadcastScenario | backend/src/sockets/index.js:16-38 | after two users join a room and one sends, the other is in the broadcast's audience, the ack carries the stored message and one message is stored |
| Chronology.Insert | backend/src/routes/dms.js:49 | inserting one message adds exactly it: one longer, same multiset plus it |
| Chronology.InsertOrdered | backend/src/routes/dms.js:49 | insertion keeps a sequence ordered oldest first |
| Chronology.SortOldestFirst | backend/src/routes/dms.js:49 | `sort({createdAt: 1})` yields a permutation ordered oldest first |
| Chronology.SortNewestFirst | backend/src/routes/rooms.js:112 | `sort({createdAt: -1})` yields a permutation ordered newest first |
| Chronology.ReversedIsNewestFirst | backend/src/routes/rooms.js:115 | reversing an oldest-first sequence gives a newest-first one |
| Chronology.NewestPageIsSuffix | backend/src/routes/rooms.js:110-115 | sorting newest first, limiting and reversing gives the last `limit` messages of the oldest-first order |
| Chronology.NewestPageIsNewest | backend/src/routes/rooms.js:110-115 | the page is ordered oldest first, drawn from the input, as long as the limit allows, and every message left out is no newer than any message on the page |
| Rooms.ListRooms | backend/src/routes/rooms.js:13-25 | `public` holds exactly the non-private rooms; `private` holds exactly the private rooms whose members include the caller |
| Rooms.ListRoomsKeepsOrder | backend/src/routes/rooms.js:14-19 | both lists keep table order |
| Rooms.CreateRoom | backend/src/routes/rooms.js:31-50 | a missing name is 400 "Name required" and a name already used is 400 "Room name already exists", both with the table unchanged; otherwise one room is appended with the creator as owner, sole admin and sole member |
| Rooms.CreateKeepsNamesUnique | backend/src/routes/rooms.js:36-39 | creation keeps room names unique |
| Rooms.MembershipChangeKeepsNamesUnique | backend/src/routes/rooms.js:64-82 | join and leave keep room names unique |
| Rooms.JoinMembers | backend/src/routes/rooms.js:64-68 | after joining the caller is a member; earlier members keep their order; a non-member is added exactly once; nobody else's count changes |
| Rooms.JoinMembersIdempotent | backend/src/routes/rooms.js:65 | joining twice is joining once |
| Rooms.LeaveMembers | backend/src/routes/rooms.js:81 | every occurrence of the caller is removed; every other member keeps their count and order |
| Rooms.LeaveAsNonMember | backend/src/routes/rooms.js:81 | leaving a room one is not in changes nothing |
| Rooms.GetRoom | backend/src/routes/rooms.js:143-147 | 404 iff no room has the id; otherwise a stored room with that id |
| Rooms.JoinRoom | backend/src/routes/rooms.js:56-71 | unknown room is 404 and a private room by a non-member is 403, both with the table unchanged; otherwise only that room's members change, to the joined list, and the updated room is returned |
| Rooms.LeaveRoom | backend/src/routes/rooms.js:77-85 | unknown room is 404; otherwise only that room's members change, to the list without the caller, and "Left room" is returned |
| Rooms.RoomHistoryIsNewestPage | backend/src/routes/rooms.js:94-116 | an id that is not 24 hex digits is 400; otherwise the page holds only that room's messages older than `before`, as many as the page size allows (default 50, 0 unlimited), oldest first, each at most as often as it is stored, and they are the newest such messages |
| Rooms.ClearRoomMessages | backend/src/routes/rooms.js:122-138 | every message of the room is deleted and "Chat cleared" returned; a store failure is 500 with nothing deleted |
| Rooms.ClearRoomRemovesExactly | backend/src/routes/rooms.js:131 | no message of the room survives, and every other message keeps its count and place |
| DirectMessages.ListDms | backend/src/routes/dms.js:11-17 | exactly the conversations whose participants include the caller, in table order |
| DirectMessages.FindDm | backend/src/routes/dms.js:29-31 | finds the first conversation naming both users, and finds one iff one exists |
| DirectMessages.FindDmSymmetric | backend/src/routes/dms.js:30 | `$all` ignores order: the lookup is the same whoever asks |
| DirectMessages.StartDmOutcome | backend/src/routes/dms.js:22-40 | oneself is 400 and nothing changes; an existing conversation of the pair comes back with the table unchanged; otherwise exactly one conversation [caller, other] is appended and returned |
| DirectMessages.StartDm | backend/src/routes/dms.js:22-40 | the reply and the new table are those of `StartDmOutcome` |
| DirectMessages.StartDmKeepsPairsUnique | backend/src/routes/dms.js:29-37 | starting a conversation never creates a second one for a pair |
| DirectMessages.StartDmTwice | backend/src/routes/dms.js:29-39 | after one user starts a conversation, the other starting one returns the same conversation and changes nothing |
| DirectMessages.DmHistory | backend/src/routes/dms.js:46-52 | exactly the conversation's messages, each as often as stored, oldest first |
| DirectMessages.ClearDmMessages | backend/src/routes/dms.js:54-67 | every message of the conversation is deleted; a store failure is 500 with nothing deleted |
| DirectMessages.ClearDmEmptiesHistory | backend/src/routes/dms.js:60 | after clearing, the conversation's history is empty |
| DirectMessages.ClearDmKeepsOtherHistories | backend/src/routes/dms.js:60 | clearing one conversation leaves every other conversation's history as it was |
| Auth.NewAccount | backend/src/routes/auth.js:21 | the account stores the hash and not the password; it has no avatar, is offline and has never been seen |
| Auth.Register | backend/src/routes/auth.js:10-30 | a missing username, email or password is 400; a username or email already in use is 400; a store failure is 500; all three leave the table unchanged; otherwise exactly one account holding the password's hash is appended and its public part is returned with a token for its id |
| Auth.RegisterKeepsAccountsUnique | backend/src/routes/auth.js:15-21 | registration keeps usernames unique and emails unique |
| Auth.FindAccount | backend/src/routes/auth.js:37 | the first account whose email or username equals the identifier, found iff one exists |
| Auth.Login | backend/src/routes/auth.js:32-49 | missing fields are 400; with both given, login succeeds exactly when the first account whose email or username is the identifier has a password that compares equal, and then returns that account's public part and a token for it; every other failure is exactly 400 "Invalid credentials" |
| Auth.LoginFailuresAlike | backend/src/routes/auth.js:37-41 | an unknown identifier and a wrong password get the identical reply |
| Auth.LoginByUsernameAfterRegister | backend/src/routes/auth.js:37-44 | a newly registered account logs in by username with its password, unless an older account has that username as its email |
| Auth.LoginByEmailAfterRegister | backend/src/routes/auth.js:37-44 | a newly registered account logs in by email with its password, unless an older account has that email as its username |
| Auth.CrossFieldShadowing | backend/src/routes/auth.js:15-37 | registration lets a newcomer take an older account's email as username, and login with that string then reaches the older account, the first match in table order |
| UserSearch.Summary | backend/src/routes/users.js:19 | the summary keeps the user's id and username |
| UserSearch.Summaries | backend/src/routes/users.js:19 | one summary per user, in order |
| UserSearch.Search | backend/src/routes/users.js:11-22 | as many results as users match, up to ten; none of them the caller, each with a username beginning with the query in any case |
| UserSearch.SearchSound | backend/src/routes/users.js:14-19 | every result is the summary of a stored user other than the caller whose username begins with the query |
| UserSearch.SearchComplete | backend/src/routes/users.js:14-18 | when at most ten users match, every one of them is returned |
| UserSearch.SearchWithoutQuery | backend/src/routes/users.js:12-16 | a missing or empty query returns the first ten users other than the caller |
| UserSearch.SearchIgnoresCase | backend/src/routes/users.js:16 | the case of the query's letters does not change the results |
| UserSearch.SummaryHidesSecrets | backend/src/routes/users.js:19 | the summary depends only on id, username, display name, avatar and online flag, never on email or password hash |
| JsText.Trim | frontend/src/components/CreateRoomDialog.jsx:18-27 | trim never lengthens and leaves no whitespace at either end |
| JsText.TrimShape | frontend/src/components/CreateRoomDialog.jsx:18-27 | trim keeps a middle slice of the string and cuts off only whitespace |
| JsText.TrimIdempotent | frontend/src/components/CreateRoomDialog.jsx:25-27 | trimming twice trims nothing more |
| JsText.SquashSpaces | backend/src/routes/upload.js:13 | the result has no whitespace and is no longer than the input |
| JsText.SquashSpacesIdentity | backend/src/routes/upload.js:13 | a name without whitespace is unchanged |
| JsText.SquashSpacesRun | backend/src/routes/upload.js:13 | a whole whitespace run, however long, becomes exactly one '_' |
| JsText.SquashSpacesKeepsSolid | backend/src/routes/upload.js:13 | every character that is neither whitespace nor '_' is kept, in order |
| JsText.StartsWithIgnoreCaseFolds | backend/src/routes/users.js:16 | case-insensitive prefix matching does not depend on the case of the query |
| JsText.ContainsIffOccurs | backend/src/routes/upload.js:21-22 | the unanchored test passes iff the word occurs at some position |
| JsText.Utf16Length | frontend/src/components/CreateRoomDialog.jsx:18 | `.length` lies between the number of code points and twice that |
| JsText.Decimal | backend/src/routes/upload.js:13 | the timestamp prints as digits with no leading zero |
| JsText.DecimalRoundTrip | backend/src/routes/upload.js:13 | reading the printed digits back gives the timestamp |
| Upload.BasenameOfJoin | backend/src/routes/upload.js:32 | the last component of `dir/name` is `name`, whatever `dir` is |
| Upload.ExtName | backend/src/routes/upload.js:22 | a non-empty extension starts with its only dot and is the end of the last path component |
| Upload.ExtNameOfName | backend/src/routes/upload.js:22 | `stem.ext` with a non-empty stem has extension `.ext` |
| Upload.DotFileHasNoExtension | backend/src/routes/upload.js:22 | a dot-file has no extension |
| Upload.AllowListTestUnanchored | backend/src/routes/upload.js:21-22 | any string with an allowed word anywhere in it passes |
| Upload.AnyTextTypePasses | backend/src/routes/upload.js:21-22 | every `text/...` type passes, `text/html` included |
| Upload.DocxIsRedundant | backend/src/routes/upload.js:21 | whatever contains `docx` contains `doc` |
| Upload.ExecutableRefused | backend/src/routes/upload.js:21-23 | `.exe` contains no allowed word |
| Upload.StoredNameParts | backend/src/routes/upload.js:13 | the stored name is the upload time's digits, a dash, and a whitespace-free rest that keeps every other character of the client's name in order |
| Upload.HandleUpload | backend/src/routes/upload.js:18-34 | no file is 400; a refused type is the filter's error; over 25 MiB is the size error; success iff the file is allowed and within the limit, with a URL under /uploads/ and the name, size and type echoed |
| Upload.UploadUrlNamesStoredFile | backend/src/routes/upload.js:13-32 | for a client name without a slash the URL is /uploads/ plus the stored name |
| Upload.SquashSpacesKeepsChars | backend/src/routes/upload.js:13 | the sanitised name adds no character but '_' |
| RegisterPage.PasswordRegexIsRule | frontend/src/pages/Register.jsx:22-26 | the password regular expression holds iff the password has at least 8 characters, all from `[A-Za-z0-9@$!%*?&]`, with a lower-case letter, an upper-case letter, a digit and a special character |
| RegisterPage.JoinOfBoxes | frontend/src/pages/Register.jsx:67 | the joined code is as long as the number of filled boxes and holds only digits |
| RegisterPage.RegisterForm.constructor | frontend/src/pages/Register.jsx:9-19 | step 1, six empty boxes, timer 60, no error |
| RegisterPage.RegisterForm.Edit | frontend/src/pages/Register.jsx:9-12 | typing changes only the four form fields |
| RegisterPage.RegisterForm.SubmitSeeing | frontend/src/pages/Register.jsx:40-77 | the error is cleared; in step 1 a password breaking the rule sets the rule's message and posts nothing; otherwise step 1 posts a code request and moves to step 2 on success, step 2 posts the joined code and logs in on success, and a failure shows the server's message or the fallback; loading ends false |
| RegisterPage.RegisterForm.Submit | frontend/src/pages/Register.jsx:40-77 | the form's own submit posts the boxes as they currently are |
| RegisterPage.RegisterForm.HandleOtpChange | frontend/src/pages/Register.jsx:96-109 | a value that is neither empty nor one digit changes nothing; otherwise only that box changes, focus moves on after a digit unless in the last box, and once all six are filled the form posts the boxes as they were before this change, then logs in on success or shows the server's message (or the fallback) on failure, staying in step 2 |
| RegisterPage.RegisterForm.HandleOtpChangeFixed | frontend/src/pages/Register.jsx:96-109 | as above, but the automatic submit posts the boxes after the change, with the same effects of the reply |
| RegisterPage.RegisterForm.HandleOtpKeyDown | frontend/src/pages/Register.jsx:111-115 | Backspace in an empty box moves focus back one, except from the first box |
| RegisterPage.RegisterForm.Tick | frontend/src/pages/Register.jsx:28-35 | one second of the countdown: it moves only in step 2 and not below 0 |
| RegisterPage.RegisterForm.ResendOtp | frontend/src/pages/Register.jsx:79-94 | a new code is requested; success restarts the countdown at 60; failure shows "Failed to resend OTP" |
| RegisterPage.CountdownValue | frontend/src/pages/Register.jsx:28-35 | after n seconds in step 2 the timer is max(timer - n, 0); in step 1 it does not move |
| RegisterPage.AutoSubmitCodeShort | frontend/src/pages/Register.jsx:106-107 | when the last empty box is filled, the boxes the submit closure sees join to only five digits |
| RegisterPage.AutoSubmitCodeComplete | frontend/src/pages/Register.jsx:106-107 | the boxes just filled join to six digits |
| RegisterPage.TypeLastDigitAsWritten | frontend/src/pages/Register.jsx:96-109 | typing the sixth digit after "12345" posts the code "12345" |
| RegisterPage.TypeLastDigitFixed | frontend/src/pages/Register.jsx:96-109 | with the corrected handler the same typing posts "123456" |
| CreateRoomDialogs.PayloadOf | frontend/src/components/CreateRoomDialog.jsx:24-29 | the payload carries the trimmed name, description and category and `isPrivate` unchanged |
| CreateRoomDialogs.CreateRoomDialog.constructor | frontend/src/components/CreateRoomDialog.jsx:5-10 | empty fields, not private, not loading, no error |
| CreateRoomDialogs.CreateRoomDialog.Edit | frontend/src/components/CreateRoomDialog.jsx:5-8 | typing changes only the four form fields |
| CreateRoomDialogs.CreateRoomDialog.Submit | frontend/src/components/CreateRoomDialog.jsx:12-42 | the error is cleared first; a trimmed name under 3 code units sets the error and calls nothing; otherwise the trimmed payload is handed over once; failure sets "Failed to create room" and keeps every field and the dialog open; success resets the fields and closes |
| CreateRoomDialogs.PayloadIsClean | frontend/src/components/CreateRoomDialog.jsx:18-29 | every payload sent has a name of at least 3 code units with no whitespace at either end, and trimmed text fields |
| CreateRoomDialogs.PaddingIgnored | frontend/src/components/CreateRoomDialog.jsx:18-25 | whitespace around a name changes neither the verdict nor the name sent |
| CreateRoomDialogs.TwoEmojiNameAccepted | frontend/src/components/CreateRoomDialog.jsx:18 | length counts UTF-16 code units, so two emoji pass the three-character rule |
| CreateRoomDialogs.RetryAfterFailure | frontend/src/components/CreateRoomDialog.jsx:32-35 | after a failed create, submitting again sends the very same payload |

## Left out

- **Presence.** `onlineUsers` holds one socket id per user: it is overwritten on reconnect and deleted on any disconnect of that user, so once a second open tab closes, the user no longer counts as online though the first tab is still open (`Sockets.TwoTabsScenario`). The model keeps this behaviour.
- **Message parents.** The message schema does not require exactly one of `roomId` and `dmId`, so the model accepts a message with neither or both (`Messages.ParentlessMessageAccepted`, `Messages.DoubleParentMessageAccepted`).
- **Concurrency.** Socket.IO delivery, network transport and the interleaving of async handlers are not modelled. Each handler is one atomic step; a broadcast is a record in the outbox, and `Audience` says who it reaches.
- **`populate`.** Sender and participant enrichment is a read-side join. It does not change what is stored, so it is omitted.
- **ObjectIds.** Ids are strings. ObjectId casting and its cast errors are not modelled. The DM and room routes take ids as given; a cast error is one of the store failures the `storeFailure` parameters stand for.
- **Other failures.** The store's behaviour on other failures is parameters. The login route's catch-all 500 and a failure of `Room.create`, which has no handler, are not modelled.
- **Access checks.** The DM history and clear routes and the room clear route do not check that the caller belongs to the conversation or room. The model does not add such a check.
- **bcrypt, JWT and clock.** Salting, hashing, comparison, token signing, the token's expiry and `Date.now()` / `new Date()` are parameters; the model only assumes they are functions.
- **The `/me` routes.** `/api/auth/me` and `/api/users/me` echo the authenticated user, which the authentication middleware provides. That middleware is not part of this model.
- **Server-side code routes.** The `/register/request-otp` and `/register/verify-otp` routes the registration page calls are not part of this model. Their answers are the `ApiReply` parameter.
- **Navigation.** The page's `login` and `navigate` are the single flag `loggedIn`.
- UserSearch.Search: covers only queries without regular-expression metacharacters. The route builds an unescaped regular expression from the query, which a metacharacter changes or makes invalid.
- **Case folding.** Case-insensitive matching folds ASCII letters only; Unicode case folding is not modelled.
- **File storage.** multer's disk writes, `mkdir` of the upload directory, and the stored size are left out. `path.join`'s normalisation of the directory is not modelled. `Upload.UploadUrlNamesStoredFile` covers client names without a slash.
- Upload.HandleUpload: a refused type and an oversized file end in Express's default error handler. The model shows that as a 500 carrying the error's message. The size check is modelled on the declared size; multer counts bytes as they stream in.
- Rooms.RoomHistory: `limit` is an optional integer. A `limit` that `parseInt` cannot read (NaN) and a `before` that is not a date are not modelled; `before` is a number on the same scale as `createdAt`.
- **Choice among matches.** `findOne` with several matching documents (`Auth.FindAccount`, `Rooms.FindRoom`, `DirectMessages.FindDm`) and a `limit` without a sort (`UserSearch.Search`) leave the order to the store. The model takes table order: the first match, the first ten matches. A store that serves the email clause of the login `$or` from its index may pick a different account than `Auth.CrossFieldShadowing` shows.
- **Sort ties.** When two messages have the same `createdAt`, the store's order is unspecified. The model picks one order (stable insertion), and the proved properties hold for any order.
- Rooms.CreateRoom: a missing name is modelled as the empty string. `isPrivate` is a boolean. The store's own casting of a non-boolean and its defaults for absent fields are not modelled.
- Rooms.JoinRoom: the reply body is the room. The fixed "Joined room" text beside it is not modelled.
- **Room model and routes.** The Room schema itself is not part of this model. Its fields are those the routes read and write.
- **Markup and plumbing.** Page markup, the dashboard and chat views, the contexts, server start-up and e-mail sending are not modelled. They hold no logic beyond wiring calls.

## Findings

| source | as written | input that shows it | evidently intended | confidence | as-written member | corrected member |
|---|---|---|---|---|---|---|
| frontend/src/pages/Register.jsx:106-107 | the automatic submit calls the `submit` of the render in which the change happened, whose `otp` (line 67) is the array before `setOtp(newOtp)` took effect, so the posted code lacks the digit just typed | step 2, boxes "1","2","3","4","5","" and the user types "6" into the last box: the code posted is "12345" | post the six digits just completed, "123456" | not executed | RegisterPage.RegisterForm.HandleOtpChange (with RegisterPage.AutoSubmitCodeShort, RegisterPage.TypeLastDigitAsWritten) | RegisterPage.RegisterForm.HandleOtpChangeFixed (with RegisterPage.AutoSubmitCodeComplete, RegisterPage.TypeLastDigitFixed) |
