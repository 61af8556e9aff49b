// Ordering messages by `createdAt`, as the store's `sort({createdAt: 1})`
// and `sort({createdAt: -1})` do, and the "newest n, shown oldest first"
// page that a descending sort, a limit and a reverse produce.
module Chronology {
  import opened Common
  import opened Messages

  predicate OldestFirst(s: seq<Message>) {
    forall i, j :: 0 <= i < j < |s| ==> s[i].createdAt <= s[j].createdAt
  }

  predicate NewestFirst(s: seq<Message>) {
    forall i, j :: 0 <= i < j < |s| ==> s[i].createdAt >= s[j].createdAt
  }

  function Insert(m: Message, s: seq<Message>): (r: seq<Message>)
    ensures |r| == |s| + 1
    ensures multiset(r) == multiset(s) + multiset{m}
  {
    if s == [] then [m]
    else if m.createdAt <= s[0].createdAt then [m] + s
    else
      assert s == [s[0]] + s[1..];
      [s[0]] + Insert(m, s[1..])
  }

  /** Inserting into an ordered sequence keeps it ordered. */
  lemma {:induction false} InsertOrdered(m: Message, s: seq<Message>)
    requires OldestFirst(s)
    ensures OldestFirst(Insert(m, s))
    ensures Insert(m, s)[0] == m || (s != [] && Insert(m, s)[0] == s[0])
  {
    if s == [] {
    } else if m.createdAt <= s[0].createdAt {
      ConsOrdered(m, s);
    } else {
      var rest := Insert(m, s[1..]);
      InsertOrdered(m, s[1..]);
      assert OldestFirst(s[1..]) by {
        forall i, j | 0 <= i < j < |s[1..]| ensures s[1..][i].createdAt <= s[1..][j].createdAt {
          assert s[1..][i] == s[i + 1] && s[1..][j] == s[j + 1];
        }
      }
      assert rest[0] == m || rest[0] == s[1];
      ConsOrdered(s[0], rest);
    }
  }

  /** Putting a message no newer than the first in front keeps the order. */
  lemma ConsOrdered(x: Message, s: seq<Message>)
    requires OldestFirst(s) && (s != [] ==> x.createdAt <= s[0].createdAt)
    ensures OldestFirst([x] + s)
  {
    var r := [x] + s;
    forall i, j | 0 <= i < j < |r| ensures r[i].createdAt <= r[j].createdAt {
      assert r[j] == s[j - 1];
      if i > 0 {
        assert r[i] == s[i - 1];
      } else if j > 1 {
        assert s[0].createdAt <= s[j - 1].createdAt;
      }
    }
  }

  /** An ordering of the messages by creation time, oldest first. The store
      leaves the order of equal timestamps open; this is one admissible choice. */
  function SortOldestFirst(s: seq<Message>): (r: seq<Message>)
    ensures OldestFirst(r)
    ensures multiset(r) == multiset(s)
  {
    if s == [] then []
    else
      assert s == [s[0]] + s[1..];
      var rest := SortOldestFirst(s[1..]);
      InsertOrdered(s[0], rest);
      Insert(s[0], rest)
  }

  /** `sort({createdAt: -1})`. */
  function SortNewestFirst(s: seq<Message>): (r: seq<Message>)
    ensures NewestFirst(r)
    ensures multiset(r) == multiset(s)
  {
    var asc := SortOldestFirst(s);
    ReverseMultiset(asc);
    ReversedIsNewestFirst(asc);
    Reverse(asc)
  }

  lemma ReversedIsNewestFirst(s: seq<Message>)
    requires OldestFirst(s)
    ensures NewestFirst(Reverse(s))
  {
    var r := Reverse(s);
    forall i, j | 0 <= i < j < |r| ensures r[i].createdAt >= r[j].createdAt {
      ReverseAt(s, i);
      ReverseAt(s, j);
    }
  }

  /** `find(...).sort({createdAt: -1}).limit(n)` followed by `.reverse()`;
      `cap == None` is a limit of 0, which the store reads as "no limit". */
  function NewestPage(s: seq<Message>, cap: Option<nat>): seq<Message> {
    var newest := SortNewestFirst(s);
    Reverse(if cap.Some? then Take(newest, cap.value) else newest)
  }

  /** The page is the oldest-first ordering with its older part cut off. */
  lemma NewestPageIsSuffix(s: seq<Message>, cap: Option<nat>)
    ensures var asc := SortOldestFirst(s);
      var r := NewestPage(s, cap);
      && |r| == (if cap.Some? && cap.value < |s| then cap.value else |s|)
      && r == asc[|asc| - |r|..]
  {
    var asc := SortOldestFirst(s);
    var n := if cap.Some? then cap.value else |s|;
    assert |asc| == |s| by {
      assert |multiset(asc)| == |multiset(s)|;
    }
    assert Take(Reverse(asc), n) == if cap.Some? then Take(SortNewestFirst(s), cap.value) else SortNewestFirst(s);
    ReverseTakeReverse(asc, n);
  }

  /** In an oldest-first sequence, everything before a cut is no newer than
      anything after it. */
  lemma CutOrdersHalves(asc: seq<Message>, k: nat)
    requires OldestFirst(asc) && k <= |asc|
    ensures forall x, y :: x in multiset(asc[..k]) && y in asc[k..] ==> x.createdAt <= y.createdAt
  {
    var lo, hi := asc[..k], asc[k..];
    forall x: Message, y: Message | x in multiset(lo) && y in hi ensures x.createdAt <= y.createdAt {
      assert x in lo;
      var i :| 0 <= i < |lo| && lo[i] == x;
      var j :| 0 <= j < |hi| && hi[j] == y;
      assert asc[i] == x && asc[k + j] == y;
    }
  }

  /** What follows a cut stays in order. */
  lemma CutKeepsOrder(asc: seq<Message>, k: nat)
    requires OldestFirst(asc) && k <= |asc|
    ensures OldestFirst(asc[k..])
  {
    var hi := asc[k..];
    forall i, j | 0 <= i < j < |hi| ensures hi[i].createdAt <= hi[j].createdAt {
      assert hi[i] == asc[k + i] && hi[j] == asc[k + j];
    }
  }

  /** A cut-off suffix of an oldest-first ordering of `s` is an oldest-first
      selection of the newest messages of `s`. */
  lemma SuffixIsNewest(s: seq<Message>, asc: seq<Message>, r: seq<Message>)
    requires OldestFirst(asc) && multiset(asc) == multiset(s)
    requires |r| <= |asc| && r == asc[|asc| - |r|..]
    ensures OldestFirst(r)
    ensures multiset(r) <= multiset(s)
    ensures forall x, y :: x in multiset(s) - multiset(r) && y in r ==> x.createdAt <= y.createdAt
  {
    var k := |asc| - |r|;
    CutKeepsOrder(asc, k);
    CutOrdersHalves(asc, k);
    SplitMultiset(s, asc, k);
  }

  /** Cutting `asc` at `k`, the suffix takes part of the multiset of `s`
      and the prefix is the rest. */
  lemma SplitMultiset(s: seq<Message>, asc: seq<Message>, k: nat)
    requires multiset(asc) == multiset(s) && k <= |asc|
    ensures multiset(asc[k..]) <= multiset(s)
    ensures multiset(s) - multiset(asc[k..]) == multiset(asc[..k])
  {
    assert asc == asc[..k] + asc[k..];
  }

  lemma NewestPageOrdered(s: seq<Message>, cap: Option<nat>)
    ensures OldestFirst(NewestPage(s, cap))
  {
    NewestPageIsSuffix(s, cap);
    SuffixIsNewest(s, SortOldestFirst(s), NewestPage(s, cap));
  }

  lemma NewestPageSelects(s: seq<Message>, cap: Option<nat>)
    ensures var r := NewestPage(s, cap);
      && multiset(r) <= multiset(s)
      && forall x, y :: x in multiset(s) - multiset(r) && y in r ==> x.createdAt <= y.createdAt
  {
    NewestPageIsSuffix(s, cap);
    SuffixIsNewest(s, SortOldestFirst(s), NewestPage(s, cap));
  }

  /** The page is sorted oldest first, holds at most `cap` messages, all of
      them taken from `s`, as many as `cap` allows; and it holds the newest
      ones: whatever was left out is no newer than anything on the page. */
  lemma NewestPageIsNewest(s: seq<Message>, cap: Option<nat>)
    ensures var r := NewestPage(s, cap);
      && OldestFirst(r)
      && multiset(r) <= multiset(s)
      && |r| == (if cap.Some? && cap.value < |s| then cap.value else |s|)
      && forall x, y :: x in multiset(s) - multiset(r) && y in r ==> x.createdAt <= y.createdAt
  {
    NewestPageIsSuffix(s, cap);
    NewestPageOrdered(s, cap);
    NewestPageSelects(s, cap);
  }
}
