// Account registration and login. Hashing, password comparison and token
// signing are functions handed in by the caller: the model only relies on
// their being functions (same input, same output).
module Auth {
  import opened Common
  import opened Documents

  const MissingFields := "Missing fields"
  const AlreadyTaken := "Username or email already taken"
  const InvalidCredentials := "Invalid credentials"
  const ServerError := "Server error"

  /** The user as the auth routes return it. */
  datatype PublicUser = PublicUser(id: Id, username: string, displayName: Option<string>, avatarUrl: Option<string>)

  datatype Session = Session(user: PublicUser, token: string)

  function Public(u: User): PublicUser {
    PublicUser(u.id, u.username, u.displayName, u.avatarUrl)
  }

  /** `{$or: [{username}, {email}]}`. */
  predicate Clashes(u: User, username: string, email: string) {
    u.username == username || u.email == email
  }

  predicate Taken(users: seq<User>, username: string, email: string) {
    exists i :: 0 <= i < |users| && Clashes(users[i], username, email)
  }

  /** No two accounts share a username, and no two share an email (the
      schema's two unique indexes). */
  ghost predicate AccountsUnique(users: seq<User>) {
    forall i, j :: 0 <= i < j < |users| ==>
      users[i].username != users[j].username && users[i].email != users[j].email
  }

  /** The account registration stores: the password only as its hash, no
      avatar, offline, never seen. */
  function NewAccount(id: Id, username: string, email: string, passwordHash: string, displayName: Option<string>): (u: User)
    ensures u.id == id && u.username == username && u.email == email && u.passwordHash == passwordHash
    ensures u.avatarUrl.None? && !u.online && u.lastSeen.None?
  {
    User(id, username, email, passwordHash, displayName, None, false, None)
  }

  /** POST /api/auth/register. A missing (or empty) username, email or
      password is refused; so is a username or email some account already
      has. Otherwise exactly one account is appended, holding
      `hash(password, salt)`, and the public part of it comes back with a
      token for its id. `storeFailure` is the store refusing the insert (a
      unique index hit by a concurrent registration, a lost connection). */
  method Register(db: Db, username: Option<string>, email: Option<string>, password: Option<string>,
                  displayName: Option<string>, salt: string, hash: (string, string) -> string,
                  sign: Id -> string, newId: Id, storeFailure: bool) returns (r: Reply<Session>)
    modifies db`users
    ensures !(Truthy(username) && Truthy(email) && Truthy(password)) ==>
      r == Fail(400, MissingFields) && db.users == old(db.users)
    ensures Truthy(username) && Truthy(email) && Truthy(password) && Taken(old(db.users), username.value, email.value) ==>
      r == Fail(400, AlreadyTaken) && db.users == old(db.users)
    ensures Truthy(username) && Truthy(email) && Truthy(password) && !Taken(old(db.users), username.value, email.value) ==>
      if storeFailure then
        r == Fail(500, ServerError) && db.users == old(db.users)
      else
        var u := NewAccount(newId, username.value, email.value, hash(password.value, salt), displayName);
        db.users == old(db.users) + [u] && r == Success(Session(Public(u), sign(newId)))
  {
    if !(Truthy(username) && Truthy(email) && Truthy(password)) {
      return Fail(400, MissingFields);
    }
    var exists_ := FindFirst(db.users, (u: User) => Clashes(u, username.value, email.value));
    if exists_.Some? {
      return Fail(400, AlreadyTaken);
    }
    if storeFailure {
      return Fail(500, ServerError);
    }
    var u := NewAccount(newId, username.value, email.value, hash(password.value, salt), displayName);
    db.users := db.users + [u];
    r := Success(Session(Public(u), sign(newId)));
  }

  /** Registration only adds an account whose username and email are both
      new, so accounts stay unique. */
  lemma RegisterKeepsAccountsUnique(users: seq<User>, u: User)
    requires AccountsUnique(users) && !Taken(users, u.username, u.email)
    ensures AccountsUnique(users + [u])
  {
    var after := users + [u];
    forall i, j | 0 <= i < j < |after|
      ensures after[i].username != after[j].username && after[i].email != after[j].email
    {
      if j == |users| {
        assert after[i] == users[i];
        assert !Clashes(users[i], u.username, u.email);
      }
    }
  }

  /** `{$or: [{email: x}, {username: x}]}`, first match in table order. */
  function FindAccount(users: seq<User>, ident: string): (r: Option<nat>)
    ensures r.Some? <==> exists i :: 0 <= i < |users| && (users[i].email == ident || users[i].username == ident)
    ensures r.Some? ==> r.value < |users| && (users[r.value].email == ident || users[r.value].username == ident)
    ensures r.Some? ==> forall i :: 0 <= i < r.value ==> users[i].email != ident && users[i].username != ident
  {
    FindFirst(users, (u: User) => u.email == ident || u.username == ident)
  }

  /** POST /api/auth/login. */
  function Login(users: seq<User>, ident: Option<string>, password: Option<string>,
                 compare: (string, string) -> bool, sign: Id -> string): (r: Reply<Session>)
    ensures !(Truthy(ident) && Truthy(password)) ==> r == Fail(400, MissingFields)
    ensures Truthy(ident) && Truthy(password) && r.Fail? ==> r == Fail(400, InvalidCredentials)
    ensures Truthy(ident) && Truthy(password) ==>
      (r.Success? <==> && FindAccount(users, ident.value).Some?
                       && compare(password.value, users[FindAccount(users, ident.value).value].passwordHash))
    ensures r.Success? ==>
      && FindAccount(users, ident.value).Some?
      && var i := FindAccount(users, ident.value).value;
         r.body == Session(Public(users[i]), sign(users[i].id))
    ensures r.Success? ==> exists i :: (
      && 0 <= i < |users|
      && (users[i].email == ident.value || users[i].username == ident.value)
      && compare(password.value, users[i].passwordHash)
      && r.body == Session(Public(users[i]), sign(users[i].id)))
  {
    if !(Truthy(ident) && Truthy(password)) then Fail(400, MissingFields)
    else match FindAccount(users, ident.value)
      case None => Fail(400, InvalidCredentials)
      case Some(i) =>
        if !compare(password.value, users[i].passwordHash) then Fail(400, InvalidCredentials)
        else Success(Session(Public(users[i]), sign(users[i].id)))
  }

  /** An unknown identifier and a known one with the wrong password get the
      very same reply, so the reply does not tell which accounts exist. */
  lemma LoginFailuresAlike(unknown: seq<User>, known: seq<User>, ident: string, password: string,
                           compare: (string, string) -> bool, sign: Id -> string)
    requires ident != "" && password != ""
    requires FindAccount(unknown, ident).None?
    requires FindAccount(known, ident).Some?
    requires !compare(password, known[FindAccount(known, ident).value].passwordHash)
    ensures Login(unknown, Some(ident), Some(password), compare, sign)
         == Login(known, Some(ident), Some(password), compare, sign)
         == Fail(400, InvalidCredentials)
  {
  }

  /** A freshly registered account can log in by its username with the
      password it registered, as long as no older account has that username
      as its email (the one case the registration check does not look at). */
  lemma {:induction false} LoginByUsernameAfterRegister(users: seq<User>, id: Id, username: string, email: string,
      password: string, displayName: Option<string>, salt: string, hash: (string, string) -> string,
      compare: (string, string) -> bool, sign: Id -> string)
    requires username != "" && password != ""
    requires !Taken(users, username, email)
    requires forall i :: 0 <= i < |users| ==> users[i].email != username
    requires compare(password, hash(password, salt))
    ensures var u := NewAccount(id, username, email, hash(password, salt), displayName);
      Login(users + [u], Some(username), Some(password), compare, sign) == Success(Session(Public(u), sign(id)))
  {
    var u := NewAccount(id, username, email, hash(password, salt), displayName);
    var after := users + [u];
    assert after[|users|] == u;
    assert forall i :: 0 <= i < |users| ==> after[i] == users[i] && !Clashes(users[i], username, email);
  }

  /** ... and by its email, as long as no older account has that email as
      its username. */
  lemma {:induction false} LoginByEmailAfterRegister(users: seq<User>, id: Id, username: string, email: string,
      password: string, displayName: Option<string>, salt: string, hash: (string, string) -> string,
      compare: (string, string) -> bool, sign: Id -> string)
    requires email != "" && password != ""
    requires !Taken(users, username, email)
    requires forall i :: 0 <= i < |users| ==> users[i].username != email
    requires compare(password, hash(password, salt))
    ensures var u := NewAccount(id, username, email, hash(password, salt), displayName);
      Login(users + [u], Some(email), Some(password), compare, sign) == Success(Session(Public(u), sign(id)))
  {
    var u := NewAccount(id, username, email, hash(password, salt), displayName);
    var after := users + [u];
    assert after[|users|] == u;
    assert forall i :: 0 <= i < |users| ==> after[i] == users[i] && !Clashes(users[i], username, email);
  }

  /** The registration check compares username with username and email with
      email only: a newcomer may take an existing account's email as their
      username, and a login with that string then reaches the older account,
      the first match in table order, never the newcomer's. */
  lemma CrossFieldShadowing(older: User, id: Id, email: string, password: string, salt: string,
                            hash: (string, string) -> string, compare: (string, string) -> bool, sign: Id -> string)
    requires older.email != "" && password != "" && older.username != older.email && email != older.email
    requires compare(password, older.passwordHash)
    ensures !Taken([older], older.email, email)
    ensures var u := NewAccount(id, older.email, email, hash(password, salt), None);
      Login([older, u], Some(older.email), Some(password), compare, sign) == Success(Session(Public(older), sign(older.id)))
  {
    var u := NewAccount(id, older.email, email, hash(password, salt), None);
    assert FindAccount([older, u], older.email) == Some(0);
  }
}
