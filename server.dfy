/** The request handlers of server.js as they run: each one updates the
    database record in place, and `Settle` scores the guesses one at a time. */
module Server {
  import opened Game

  class Database {
    var users: map<string, int>
    var guesses: map<string, string>
    var roundOpen: bool

    /** The record as a value, for the specifications in `Game`. */
    function Snapshot(): Db
      reads this
    {
      Db(users, guesses, roundOpen)
    }

    /** The record of a freshly created database file (server.js:19-23). */
    constructor ()
      ensures Snapshot() == Initial
      ensures ScoresValid(users)
    {
      users := map[];
      guesses := map[];
      roundOpen := true;
    }

    /** `POST /api/login` (server.js:58-72): a falsy name is rejected; a new
        name gets a record with score 0; a known name is left alone. */
    method Login(username: Option<string>) returns (reply: Result<string>)
      modifies this
      ensures reply == Game.Login(old(Snapshot()), username).reply
      ensures Snapshot() == Game.Login(old(Snapshot()), username).next
      ensures ScoresValid(old(users)) ==> ScoresValid(users)
    {
      if username.None? || username.value == "" {
        return Err(InvalidInput);
      }
      var name := username.value;
      if name !in users {
        users := users[name := 0];
      }
      reply := Ok(name);
    }

    /** `POST /api/guess` (server.js:75-88): no identity is 401, a closed
        round is 403, otherwise the caller's guess is overwritten. */
    method SubmitGuess(identity: Option<string>, guess: Option<string>) returns (reply: Result<()>)
      modifies this
      ensures reply == Game.SubmitGuess(old(Snapshot()), identity, guess).reply
      ensures Snapshot() == Game.SubmitGuess(old(Snapshot()), identity, guess).next
      ensures ScoresValid(old(users)) ==> ScoresValid(users)
    {
      if identity.None? || identity.value == "" {
        return Err(Unauthenticated);
      }
      if !roundOpen {
        return Err(RoundClosed);
      }
      var name := identity.value;
      match guess {
        case Some(g) => guesses := guesses[name := g];
        case None => guesses := guesses - {name};
      }
      reply := Ok(());
    }

    /** `POST /api/admin/settle` (server.js:91-112): every guess strictly
        equal to the answer whose guesser has a record earns 10 points and
        puts the guesser on the winners list; then the guesses are cleared
        and the round reopened. */
    method Settle(correctAnswer: Option<string>) returns (winners: seq<string>)
      modifies this
      ensures Snapshot() == Game.Settle(old(Snapshot()), correctAnswer)
      ensures forall i :: 0 <= i < |winners| ==> winners[i] in Winners(old(Snapshot()), correctAnswer)
      ensures forall u :: u in Winners(old(Snapshot()), correctAnswer) ==> u in winners
      ensures forall i, j :: 0 <= i < j < |winners| ==> winners[i] != winners[j]
      ensures |winners| <= |old(guesses)|
      ensures ScoresValid(old(users)) ==> ScoresValid(users)
    {
      ghost var won := Winners(Snapshot(), correctAnswer);
      var entries := guesses;
      var pending := entries.Keys;
      winners := [];
      while pending != {}
        invariant pending <= entries.Keys
        invariant guesses == entries == old(guesses) && roundOpen == old(roundOpen)
        invariant users.Keys == old(users).Keys
        invariant forall u :: u in users ==>
          users[u] == if u in won && u !in pending then old(users)[u] + Award else old(users)[u]
        invariant forall i :: 0 <= i < |winners| ==> winners[i] in won && winners[i] !in pending
        invariant forall u :: u in won && u !in pending ==> u in winners
        invariant forall i, j :: 0 <= i < j < |winners| ==> winners[i] != winners[j]
        decreases pending
      {
        var user :| user in pending;
        var guess := entries[user];
        if Some(guess) == correctAnswer {
          if user in users {
            users := users[user := users[user] + Award];
            winners := winners + [user];
          }
        }
        pending := pending - {user};
      }
      SettledUsers(old(Snapshot()), correctAnswer, users);
      DistinctAtMost(winners, entries.Keys);
      guesses := map[];
      roundOpen := true;
    }
  }

  /** Scores that a scan credited winner by winner are those of the
      settlement, and they keep the scores valid. */
  lemma SettledUsers(db: Db, answer: Option<string>, users: map<string, int>)
    requires users.Keys == db.users.Keys
    requires forall u :: u in users ==>
      users[u] == if u in Winners(db, answer) then db.users[u] + Award else db.users[u]
    ensures users == Game.Settle(db, answer).users
    ensures ScoresValid(db.users) ==> ScoresValid(users)
  {
    if ScoresValid(db.users) {
      forall u | u in users ensures users[u] >= 0 && users[u] % Award == 0 {
        assert db.users[u] >= 0 && db.users[u] % Award == 0;
      }
    }
  }

  /** A list without repeats drawn from `names` is no longer than `names`. */
  lemma {:induction false} DistinctAtMost(s: seq<string>, names: set<string>)
    requires forall i :: 0 <= i < |s| ==> s[i] in names
    requires forall i, j :: 0 <= i < j < |s| ==> s[i] != s[j]
    ensures |s| <= |names|
  {
    if s != [] {
      forall i | 0 <= i < |s[1..]| ensures s[1..][i] in names - {s[0]} {
        assert s[1..][i] == s[i + 1];
      }
      DistinctAtMost(s[1..], names - {s[0]});
    }
  }
}
