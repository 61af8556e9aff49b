// The direct-message routes: listing the caller's conversations, starting
// (or finding) the one conversation between two users, reading its
// history oldest first, and clearing it.
module DirectMessages {
  import opened Common
  import opened Messages
  import opened Documents
  import opened Chronology

  const CannotDmSelf := "Cannot DM yourself"
  const ServerError := "Server Error"
  const ChatCleared := "Chat cleared"

  /** GET /api/dms: the conversations the caller takes part in, in table order. */
  function ListDms(dms: seq<DMConversation>, caller: Id): (r: seq<DMConversation>)
    ensures forall d :: d in r <==> d in dms && caller in d.participants
    ensures IsSubsequence(r, dms)
  {
    FilterIsSubsequence(dms, (d: DMConversation) => caller in d.participants);
    Filter(dms, (d: DMConversation) => caller in d.participants)
  }

  /** `participants: {$all: [a, b]}`: the conversation names both users. */
  predicate Covers(d: DMConversation, a: Id, b: Id) {
    a in d.participants && b in d.participants
  }

  /** `DM.findOne` with that query: the first such conversation in table order. */
  function FindDm(dms: seq<DMConversation>, a: Id, b: Id): (r: Option<nat>)
    ensures r.Some? <==> exists i :: 0 <= i < |dms| && Covers(dms[i], a, b)
    ensures r.Some? ==> r.value < |dms| && Covers(dms[r.value], a, b)
    ensures r.Some? ==> forall i :: 0 <= i < r.value ==> !Covers(dms[i], a, b)
  {
    FindFirst(dms, (d: DMConversation) => Covers(d, a, b))
  }

  /** The lookup does not depend on who asks: `$all` ignores order. */
  lemma {:induction false} FindDmSymmetric(dms: seq<DMConversation>, a: Id, b: Id)
    ensures FindDm(dms, a, b) == FindDm(dms, b, a)
  {
    var r, s := FindDm(dms, a, b), FindDm(dms, b, a);
    assert forall i :: 0 <= i < |dms| ==> (Covers(dms[i], a, b) <==> Covers(dms[i], b, a));
  }

  /** POST /api/dms/start/:userId: a user cannot open a conversation with
      themselves; otherwise the existing conversation between the two comes
      back unchanged, or a new one `[caller, other]` is appended and
      returned. The pair (reply, new table) is what the method produces. */
  function StartDmOutcome(dms: seq<DMConversation>, caller: Id, other: Id, newId: Id): (r: (Reply<DMConversation>, seq<DMConversation>))
    ensures other == caller ==> r == (Fail(400, CannotDmSelf), dms)
    ensures other != caller ==> r.0.Success? && Covers(r.0.body, caller, other)
    ensures other != caller && FindDm(dms, caller, other).Some? ==>
      r.1 == dms && r.0.body in dms
    ensures other != caller && FindDm(dms, caller, other).None? ==>
      r.0.body == DMConversation(newId, [caller, other]) && r.1 == dms + [r.0.body]
  {
    if other == caller then (Fail(400, CannotDmSelf), dms)
    else match FindDm(dms, caller, other)
      case Some(i) => (Success(dms[i]), dms)
      case None =>
        var d := DMConversation(newId, [caller, other]);
        (Success(d), dms + [d])
  }

  method StartDm(db: Db, caller: Id, other: Id, newId: Id) returns (r: Reply<DMConversation>)
    modifies db`dms
    ensures (r, db.dms) == StartDmOutcome(old(db.dms), caller, other, newId)
  {
    if other == caller {
      return Fail(400, CannotDmSelf);
    }
    var found := FindDm(db.dms, caller, other);
    if found.Some? {
      r := Success(db.dms[found.value]);
    } else {
      var d := DMConversation(newId, [caller, other]);
      db.dms := db.dms + [d];
      r := Success(d);
    }
  }

  /** At most one conversation per pair of distinct users. */
  ghost predicate PairsUnique(dms: seq<DMConversation>) {
    forall i, j, a, b :: 0 <= i < j < |dms| && a != b && Covers(dms[i], a, b) ==> !Covers(dms[j], a, b)
  }

  /** Starting a conversation never creates a second one for a pair. */
  lemma StartDmKeepsPairsUnique(dms: seq<DMConversation>, caller: Id, other: Id, newId: Id)
    requires PairsUnique(dms)
    ensures PairsUnique(StartDmOutcome(dms, caller, other, newId).1)
  {
    if other != caller && FindDm(dms, caller, other).None? {
      var d := DMConversation(newId, [caller, other]);
      var after := dms + [d];
      forall i, j, a, b | 0 <= i < j < |after| && a != b && Covers(after[i], a, b)
        ensures !Covers(after[j], a, b)
      {
        if j == |dms| {
          assert after[i] == dms[i];
        }
      }
    }
  }

  /** Whoever starts it, and however often, two users end up in the same
      conversation and the table holds it once: after `caller` starts a
      conversation with `other`, `other` starting one with `caller` returns
      the same conversation and changes nothing. */
  lemma StartDmTwice(dms: seq<DMConversation>, caller: Id, other: Id, id1: Id, id2: Id)
    requires caller != other
    ensures var (r1, dms1) := StartDmOutcome(dms, caller, other, id1);
      StartDmOutcome(dms1, other, caller, id2) == (r1, dms1)
  {
    var (r1, dms1) := StartDmOutcome(dms, caller, other, id1);
    FindDmSymmetric(dms1, other, caller);
    FindDmSymmetric(dms, caller, other);
    var found := FindDm(dms, caller, other);
    if found.None? {
      var k := FindDm(dms1, caller, other);
      assert Covers(dms1[|dms|], caller, other);
      assert k.Some?;
      assert forall i :: 0 <= i < |dms| ==> dms1[i] == dms[i];
      assert k.value == |dms|;
    } else {
      assert FindDm(dms1, caller, other) == found;
    }
  }

  /** GET /api/dms/:id/messages: the conversation's messages, oldest first. */
  function DmHistory(messages: seq<Message>, dmId: Id): (r: seq<Message>)
    ensures OldestFirst(r)
    ensures forall m :: m in r <==> m in messages && m.dmId == Some(dmId)
    ensures forall m :: multiset(r)[m] == if m.dmId == Some(dmId) then multiset(messages)[m] else 0
  {
    var p := (m: Message) => m.dmId == Some(dmId);
    var matching := Filter(messages, p);
    forall m ensures multiset(matching)[m] == if p(m) then multiset(messages)[m] else 0 {
      FilterMultiplicity(messages, p, m);
    }
    var r := SortOldestFirst(matching);
    assert forall m :: m in r <==> m in multiset(r);
    assert forall m :: m in matching <==> m in multiset(matching);
    r
  }

  /** DELETE /api/dms/:id/messages: every message of the conversation goes,
      all others stay in order; a store failure is a 500 and deletes nothing. */
  method ClearDmMessages(db: Db, dmId: Id, storeFailure: bool) returns (r: Reply<string>)
    modifies db`messages
    ensures storeFailure ==> r == Fail(500, ServerError) && db.messages == old(db.messages)
    ensures !storeFailure ==>
      r == Success(ChatCleared) && db.messages == Filter(old(db.messages), (m: Message) => m.dmId != Some(dmId))
  {
    if storeFailure {
      return Fail(500, ServerError);
    }
    db.messages := Filter(db.messages, (m: Message) => m.dmId != Some(dmId));
    r := Success(ChatCleared);
  }

  /** After clearing, nothing of the conversation is left. */
  lemma ClearDmEmptiesHistory(messages: seq<Message>, dmId: Id)
    ensures DmHistory(Filter(messages, (m: Message) => m.dmId != Some(dmId)), dmId) == []
  {
    var h := DmHistory(Filter(messages, (m: Message) => m.dmId != Some(dmId)), dmId);
    assert forall m :: m !in h;
  }

  /** ... and every other conversation's history is what it was. */
  lemma ClearDmKeepsOtherHistories(messages: seq<Message>, dmId: Id, otherDm: Id)
    requires otherDm != dmId
    ensures multiset(DmHistory(Filter(messages, (m: Message) => m.dmId != Some(dmId)), otherDm))
         == multiset(DmHistory(messages, otherDm))
  {
    var p := (m: Message) => m.dmId != Some(dmId);
    var after := Filter(messages, p);
    var h1, h2 := DmHistory(after, otherDm), DmHistory(messages, otherDm);
    forall m: Message ensures multiset(h1)[m] == multiset(h2)[m] {
      FilterMultiplicity(messages, p, m);
    }
    assert multiset(h1) == multiset(h2);
  }
}
