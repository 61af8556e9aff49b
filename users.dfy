// User search: the other users whose username begins with the query,
// compared without case, at most ten of them, in table order, each reduced
// to the fields a client may see.
module UserSearch {
  import opened Common
  import opened JsText
  import opened Documents

  const ResultLimit := 10

  /** The characters a regular expression gives a meaning to. */
  const RegexMeta := "\\^$.*+?()[]{}|"

  predicate FreeOfMeta(q: string) {
    forall i :: 0 <= i < |q| ==> q[i] !in RegexMeta
  }

  /** `.select('username displayName avatarUrl online')`, which keeps `_id`. */
  datatype UserSummary = UserSummary(id: Id, username: string, displayName: Option<string>,
                                     avatarUrl: Option<string>, online: bool)

  function Summary(u: User): (s: UserSummary)
    ensures s.id == u.id && s.username == u.username
  {
    UserSummary(u.id, u.username, u.displayName, u.avatarUrl, u.online)
  }

  function Summaries(us: seq<User>): (r: seq<UserSummary>)
    ensures |r| == |us|
    ensures forall k :: 0 <= k < |r| ==> r[k] == Summary(us[k])
  {
    seq(|us|, k requires 0 <= k < |us| => Summary(us[k]))
  }

  /** `{_id: {$ne: caller}, username: new RegExp('^' + q, 'i')}`. */
  predicate Matches(u: User, caller: Id, q: string) {
    u.id != caller && StartsWithIgnoreCase(u.username, q)
  }

  function Query(q: Option<string>): string {
    if q.Some? then q.value else ""
  }

  function Matching(users: seq<User>, caller: Id, q: string): seq<User> {
    Filter(users, (u: User) => Matches(u, caller, q))
  }

  /** GET /api/users/search?q: the first ten matching users in table order. */
  function Search(users: seq<User>, caller: Id, q: Option<string>): (r: seq<UserSummary>)
    requires FreeOfMeta(Query(q))
    ensures |r| <= ResultLimit
    ensures var n := |Matching(users, caller, Query(q))|; |r| == if n <= ResultLimit then n else ResultLimit
    ensures forall k :: 0 <= k < |r| ==> r[k].id != caller && StartsWithIgnoreCase(r[k].username, Query(q))
  {
    var found := Take(Matching(users, caller, Query(q)), ResultLimit);
    assert forall k :: 0 <= k < |found| ==> found[k] in Matching(users, caller, Query(q));
    Summaries(found)
  }

  /** Every result is the visible part of a stored account other than the
      caller's whose username begins with the query. */
  lemma SearchSound(users: seq<User>, caller: Id, q: Option<string>, k: nat)
    requires FreeOfMeta(Query(q)) && k < |Search(users, caller, q)|
    ensures exists u :: u in users && Matches(u, caller, Query(q)) && Search(users, caller, q)[k] == Summary(u)
  {
    var found := Take(Matching(users, caller, Query(q)), ResultLimit);
    assert found[k] in Matching(users, caller, Query(q));
  }

  /** When no more than ten users match, every one of them is returned. */
  lemma SearchComplete(users: seq<User>, caller: Id, q: Option<string>, u: User)
    requires FreeOfMeta(Query(q))
    requires |Matching(users, caller, Query(q))| <= ResultLimit
    requires u in users && Matches(u, caller, Query(q))
    ensures Summary(u) in Search(users, caller, q)
  {
    var m := Matching(users, caller, Query(q));
    var k :| 0 <= k < |m| && m[k] == u;
    assert Search(users, caller, q)[k] == Summary(u);
  }

  /** A missing or empty query matches every other user, up to the limit. */
  lemma SearchWithoutQuery(users: seq<User>, caller: Id)
    ensures Search(users, caller, None) == Search(users, caller, Some(""))
         == Summaries(Take(Filter(users, (u: User) => u.id != caller), ResultLimit))
  {
    forall i | 0 <= i < |users| ensures Matches(users[i], caller, "") == (users[i].id != caller) {
      StartsWithIgnoreCaseEmpty(users[i].username);
    }
    FilterAgreeing(users, (u: User) => Matches(u, caller, ""), (u: User) => u.id != caller);
  }

  /** The letters' case in the query does not matter. */
  lemma SearchIgnoresCase(users: seq<User>, caller: Id, q: string)
    requires FreeOfMeta(q)
    ensures FreeOfMeta(Lower(q))
    ensures Search(users, caller, Some(q)) == Search(users, caller, Some(Lower(q)))
  {
    forall i | 0 <= i < |q| ensures Lower(q)[i] !in RegexMeta {
      assert Lower(q)[i] == q[i] || 'a' <= Lower(q)[i] <= 'z';
    }
    forall i | 0 <= i < |users| ensures Matches(users[i], caller, q) == Matches(users[i], caller, Lower(q)) {
      StartsWithIgnoreCaseFolds(users[i].username, q);
    }
    FilterAgreeing(users, (u: User) => Matches(u, caller, q), (u: User) => Matches(u, caller, Lower(q)));
  }

  /** No field of a result carries the password hash or the email. */
  lemma SummaryHidesSecrets(u: User, v: User)
    requires u.id == v.id && u.username == v.username && u.displayName == v.displayName
    requires u.avatarUrl == v.avatarUrl && u.online == v.online
    ensures Summary(u) == Summary(v)
  {
  }
}
