/** What the handlers of server.js promise across several requests. */
module Properties {
  import opened Leaderboard
  import opened Game

  /** A repeated login is a no-op: the score is not reset (server.js:64-67). */
  lemma LoginTwice(db: Db, username: Option<string>)
    ensures Login(Login(db, username).next, username) == Login(db, username)
  {
  }

  /** After a successful login the cookie it sets identifies a logged-in
      caller whose score is the one on record, or 0 for a new name
      (server.js:48-50, 64-70). */
  lemma LoginThenStatus(db: Db, username: Option<string>)
    requires Truthy(username)
    ensures Login(db, username).reply.Ok?
    ensures var s := Status(Login(db, username).next, Some(Login(db, username).reply.value));
      && s.isLoggedIn
      && s.currentUser == username
      && s.myScore == (if username.value in db.users then db.users[username.value] else 0)
  {
  }

  /** After an admitted guess the caller's status shows it, except that a
      stored empty guess is falsy and reads as null (server.js:51, 85). */
  lemma GuessThenStatus(db: Db, identity: Option<string>, guess: string)
    requires Truthy(identity) && db.roundOpen
    ensures Status(SubmitGuess(db, identity, Some(guess)).next, identity).myGuess
      == if guess == "" then None else Some(guess)
  {
  }

  /** Submission is last-write-wins: a second admitted guess replaces the
      first as if the first had never been sent (server.js:85). */
  lemma GuessLastWriteWins(db: Db, identity: Option<string>, first: Option<string>, second: Option<string>)
    ensures SubmitGuess(SubmitGuess(db, identity, first).next, identity, second)
      == SubmitGuess(db, identity, second)
  {
  }

  /** No more winners than guesses (server.js:97-104). */
  lemma {:induction false} WinnersAtMostGuesses(db: Db, answer: Option<string>)
    ensures |Winners(db, answer)| <= |db.guesses|
  {
    SubsetCard(Winners(db, answer), db.guesses.Keys);
  }

  lemma {:induction false} SubsetCard(a: set<string>, b: set<string>)
    requires a <= b
    ensures |a| <= |b|
    decreases b
  {
    if a != {} {
      var x :| x in a;
      SubsetCard(a - {x}, b - {x});
    }
  }

  /** A settlement right after a settlement finds no guesses: it has no
      winners and changes nothing (server.js:107-108). */
  lemma SettleTwice(db: Db, first: Option<string>, second: Option<string>)
    ensures Winners(Settle(db, first), second) == {}
    ensures Settle(Settle(db, first), second) == Settle(db, first)
  {
  }

  /** Scores stay non-negative multiples of 10 across any one request
      (server.js:65, 100). */
  lemma ApplyKeepsScoresValid(db: Db, req: Request)
    requires ScoresValid(db.users)
    ensures ScoresValid(Apply(db, req).users)
  {
  }

  lemma {:induction false} RunKeepsScoresValid(db: Db, reqs: seq<Request>)
    requires ScoresValid(db.users)
    ensures ScoresValid(Run(db, reqs).users)
    decreases |reqs|
  {
    if reqs != [] {
      ApplyKeepsScoresValid(db, reqs[0]);
      RunKeepsScoresValid(Apply(db, reqs[0]), reqs[1..]);
    }
  }

  /** Every record the server can reach from a fresh database file has
      scores that are non-negative multiples of 10 (server.js:19-23, 65, 100). */
  lemma ReachableScoresValid(reqs: seq<Request>)
    ensures ScoresValid(Run(Initial, reqs).users)
  {
    RunKeepsScoresValid(Initial, reqs);
  }

  /** No request removes a user record or lowers a score (server.js:65, 100, 107). */
  lemma {:induction false} RunKeepsUsers(db: Db, reqs: seq<Request>)
    ensures db.users.Keys <= Run(db, reqs).users.Keys
    ensures forall u :: u in db.users ==> db.users[u] <= Run(db, reqs).users[u]
    decreases |reqs|
  {
    if reqs != [] {
      RunKeepsUsers(Apply(db, reqs[0]), reqs[1..]);
    }
  }

  /** No handler closes the round: settlement reopens it and nothing else
      writes it (server.js:22, 108), so a guess from a logged-in caller is
      never refused as late. */
  lemma {:induction false} RunKeepsRoundOpen(db: Db, reqs: seq<Request>)
    requires db.roundOpen
    ensures Run(db, reqs).roundOpen
    decreases |reqs|
  {
    if reqs != [] {
      RunKeepsRoundOpen(Apply(db, reqs[0]), reqs[1..]);
    }
  }

  lemma NoRoundClosedFromFreshFile(reqs: seq<Request>, identity: Option<string>, guess: Option<string>)
    ensures SubmitGuess(Run(Initial, reqs), identity, guess).reply != Err(RoundClosed)
  {
    RunKeepsRoundOpen(Initial, reqs);
  }

  /** The answer is compared with `===`: no trimming, no case folding
      (server.js:98). Of the guesses "a ", "B" and "A" against "A" only the
      last wins, and a guesser without a user record is skipped (server.js:99). */
  lemma StrictComparison()
    ensures Winners(Db(map["alice" := 0, "bob" := 0, "carol" := 0],
                       map["alice" := "a ", "bob" := "B", "carol" := "A", "dave" := "A"], true),
                    Some("A")) == {"carol"}
  {
    var db := Db(map["alice" := 0, "bob" := 0, "carol" := 0],
                 map["alice" := "a ", "bob" := "B", "carol" := "A", "dave" := "A"], true);
    assert "a " != "A" && "B" != "A";
    assert "dave" !in db.users;
  }

  /** A user with a higher score stands above one with a lower score on
      the leaderboard: with x:30, y:10, z:30 both x and z precede y
      (server.js:43-45). */
  lemma HigherScoreFirst(users: map<string, int>, a: string, b: string)
    requires a in users && b in users && users[a] > users[b]
    ensures var board := Board(users);
      forall i, j :: 0 <= i < |board| && 0 <= j < |board| && board[i].name == a && board[j].name == b ==> i < j
  {
    HigherFirst(Board(users), users, a, b);
  }

  lemma HigherFirst(board: seq<Entry>, users: map<string, int>, a: string, b: string)
    requires Descending(board) && ListsAll(board, users)
    requires a in users && b in users && users[a] > users[b]
    ensures forall i, j :: 0 <= i < |board| && 0 <= j < |board| && board[i].name == a && board[j].name == b ==> i < j
  {
    forall i, j | 0 <= i < |board| && 0 <= j < |board| && board[i].name == a && board[j].name == b
      ensures i < j
    {
      assert board[i] in board && board[j] in board;
    }
  }
}
