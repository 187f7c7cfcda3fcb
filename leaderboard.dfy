/** The leaderboard of the status reply: every user record projected to a
    name/score pair, ordered by descending score (server.js:43-45). */
module Leaderboard {

  /** One row of the leaderboard, `{ name, score }`. */
  datatype Entry = Entry(name: string, score: int)

  /** Non-increasing in score: what `.sort((a, b) => b.score - a.score)` guarantees. */
  predicate Descending(s: seq<Entry>)
  {
    forall i, j :: 0 <= i < j < |s| ==> s[i].score >= s[j].score
  }

  /** `s` lists each entry of `users` exactly once and nothing else. */
  ghost predicate ListsAll(s: seq<Entry>, users: map<string, int>)
  {
    && |s| == |users|
    && forall e :: e in s <==> e.name in users && users[e.name] == e.score
  }

  /** `Object.entries(users).map(...)`: the entries in an order the engine
      chooses; the model fixes no particular order. */
  ghost function Entries(users: map<string, int>): (es: seq<Entry>)
    ensures ListsAll(es, users)
    ensures forall i, j :: 0 <= i < j < |es| ==> es[i].name != es[j].name
    decreases |users|
  {
    if users == map[] then []
    else
      var k :| k in users;
      var rest := users - {k};
      assert rest.Keys == users.Keys - {k};
      assert |rest| == |users| - 1;
      [Entry(k, users[k])] + Entries(rest)
  }

  /** Places `e` in front of the first entry it is not below, so that equal
      scores keep their order. */
  function Insert(e: Entry, s: seq<Entry>): (r: seq<Entry>)
    requires Descending(s)
    ensures Descending(r)
    ensures multiset(r) == multiset(s) + multiset{e}
    ensures forall k :: 0 <= k < |r| ==> r[k] == e || r[k] in s
  {
    if s == [] then [e]
    else if e.score >= s[0].score then
      DescendingCons(e, s);
      [e] + s
    else
      var tail := Insert(e, s[1..]);
      assert s == [s[0]] + s[1..];
      HeadDominates(s, tail, e);
      DescendingCons(s[0], tail);
      [s[0]] + tail
  }

  /** A head no lower than anything after it extends a descending sequence. */
  lemma DescendingCons(a: Entry, t: seq<Entry>)
    requires Descending(t)
    requires forall k :: 0 <= k < |t| ==> t[k].score <= a.score
    ensures Descending([a] + t)
  {
  }

  /** The head of a descending `s` is no lower than anything drawn from the
      rest of `s` or lower than it. */
  lemma HeadDominates(s: seq<Entry>, t: seq<Entry>, e: Entry)
    requires Descending(s) && s != []
    requires e.score < s[0].score
    requires forall k :: 0 <= k < |t| ==> t[k] == e || t[k] in s[1..]
    ensures forall k :: 0 <= k < |t| ==> t[k].score <= s[0].score
  {
    forall k | 0 <= k < |t| ensures t[k].score <= s[0].score {
      if t[k] != e {
        var m :| 0 <= m < |s[1..]| && s[1..][m] == t[k];
        assert s[1 + m] == t[k];
      }
    }
  }

  /** The comparator sort of server.js:45, as an insertion sort. */
  function SortByScore(s: seq<Entry>): (r: seq<Entry>)
    ensures Descending(r)
    ensures multiset(r) == multiset(s)
  {
    if s == [] then []
    else
      assert s == [s[0]] + s[1..];
      Insert(s[0], SortByScore(s[1..]))
  }

  /** The leaderboard built from the user records. */
  ghost function Board(users: map<string, int>): (b: seq<Entry>)
    ensures Descending(b)
    ensures ListsAll(b, users)
  {
    var es := Entries(users);
    var b := SortByScore(es);
    assert forall e :: e in b <==> e in es by {
      forall e ensures e in b <==> e in es {
        assert e in b <==> e in multiset(b);
        assert e in es <==> e in multiset(es);
      }
    }
    assert |b| == |multiset(b)| == |multiset(es)| == |es|;
    b
  }
}
