# Guess game: the round state machine

This project models the core of a small round-based guessing game server (`server.js`). Players log in with a display name and submit a guess while a round is open. An administrator then settles the round against the correct answer. Each player whose guess is exactly the answer earns 10 points. Settling clears every guess and reopens the round. The status request reports the leaderboard and the caller's own score and guess.

The whole server state is one record: `users` (name to score), `guesses` (name to guess text) and `roundOpen`. The model has four modules:

- `Leaderboard` (`leaderboard.dfy`): the leaderboard rows, the enumeration of the user records, and the descending sort by score.
- `Game` (`game.dfy`): the record as a value `Db`. It defines the four handlers as functions from a record and the request fields to a reply and the next record: `Status`, `Login`, `SubmitGuess` and `Settle`. It also defines a request trace `Run`.
- `Properties` (`properties.dfy`): lemmas about those functions across several requests. They cover repeated logins and settlements, last-write-wins guessing, the score invariant, and the fact that the round is never closed.
- `Server` (`server.dfy`): the class `Database` whose fields the handlers update in place. `Settle` runs the scan over the guesses as a loop, and each method is proved against the matching `Game` function.

Request fields and the identity cookie are `Option<string>`. `None` stands for a field that is absent (JavaScript `undefined`). A value counts as JavaScript-truthy when it is present and not the empty string. The rejections (400, 401, 403) are the `Error` values `InvalidInput`, `Unauthenticated` and `RoundClosed`.

The model follows the code as written:

- Names and guesses are never trimmed or upper-cased. The answer is compared with strict `===` (server.js:98), so `"a "` does not match `"A"`.
- Submitting a guess never creates a missing user record (server.js:85). Such a guesser is skipped at settlement (server.js:99).
- A stored empty guess is reported by status as `null` (server.js:51).
- If the `guess` field is absent, JavaScript stores `undefined`, and the JSON file drops that key when it is written. So the model removes the caller's previous guess.
- Nothing ever closes the round. `Properties.RunKeepsRoundOpen` shows that an open round stays open under any sequence of requests, and `Properties.NoRoundClosedFromFreshFile` uses it to show that `RoundClosed` cannot happen once the database file has been created fresh.

## Model

| member | source | states |
|---|---|---|
| Leaderboard.Entries | server.js:43-44 | the user records projected to `{name, score}` pairs: each record appears exactly once, with no repeated name and nothing else |
| Leaderboard.Insert | server.js:45 | inserting into a list that is non-increasing in score keeps it non-increasing and adds exactly that entry |
| Leaderboard.SortByScore | server.js:45 | the comparator sort `b.score - a.score`: the result is non-increasing in score and a permutation of the input |
| Leaderboard.Board | server.js:43-45 | the leaderboard is non-increasing in score and lists every user record exactly once |
| Game.Status | server.js:38-55 | logged in iff the cookie is truthy; `currentUser` is the cookie or null; `myScore` is the recorded score or 0 when there is no identity or no record; `myGuess` is present iff there is an identity and a non-empty stored guess, and then equals it; `roundOpen` is copied; the leaderboard is sorted and a permutation of the users |
| Game.Login | server.js:58-72 | rejected with InvalidInput iff the name is absent or empty, and then nothing changes; on success the cookie carries the name; exactly that name is added to the users; every existing score is kept; a new name starts at 0; guesses and roundOpen are unchanged |
| Game.SubmitGuess | server.js:75-88 | no identity gives Unauthenticated, otherwise a closed round gives RoundClosed, and a rejection changes nothing; users and roundOpen are never changed; on success the caller's stored guess is the submitted one and every other guess is unchanged |
| Game.Settle | server.js:91-112 | guesses become empty and the round open; no user key is added or removed; a user whose guess equals the answer gains exactly 10; every other user keeps their score |
| Properties.LoginTwice | server.js:64-67 | logging in again with the same name gives the same reply and changes nothing: no score reset |
| Properties.LoginThenStatus | server.js:47-50 | after a successful login, status with the cookie value it set, read back unchanged, shows the caller logged in, as `currentUser`, with the recorded score or 0 |
| Properties.GuessThenStatus | server.js:51 | after an admitted guess, status shows it as `myGuess`, except that an empty guess reads as null |
| Properties.GuessLastWriteWins | server.js:85 | two submissions by the same caller leave the same record and reply as the second alone |
| Properties.WinnersAtMostGuesses | server.js:97-104 | a settlement has no more winners than stored guesses |
| Properties.SettleTwice | server.js:107-108 | a settlement straight after a settlement has no winners and changes nothing |
| Properties.ApplyKeepsScoresValid | server.js:65 | every request keeps all scores non-negative multiples of 10 |
| Properties.RunKeepsScoresValid | server.js:100 | every sequence of requests keeps all scores non-negative multiples of 10 |
| Properties.ReachableScoresValid | server.js:19-23 | from a freshly created database file, every reachable record has only scores that are non-negative multiples of 10 |
| Properties.RunKeepsUsers | server.js:64-67 | no sequence of requests removes a user record or lowers a score |
| Properties.RunKeepsRoundOpen | server.js:108 | once the round is open it stays open under every sequence of requests |
| Properties.NoRoundClosedFromFreshFile | server.js:82 | from a freshly created database file, a guess is never refused with RoundClosed |
| Properties.StrictComparison | server.js:98-99 | against answer "A", guesses "a " and "B" do not win, "A" wins, and a guesser with no user record is skipped |
| Properties.HigherScoreFirst | server.js:45 | wherever two users with different scores stand on the leaderboard, the one with the higher score is above the other |
| Server.Database.constructor | server.js:19-23 | a new database has no users, no guesses and an open round, and its scores are valid |
| Server.Database.Login | server.js:58-72 | updates the record in place exactly as `Game.Login` and gives its reply; keeps scores valid |
| Server.Database.SubmitGuess | server.js:75-88 | updates the record in place exactly as `Game.SubmitGuess` and gives its reply; keeps scores valid |
| Server.Database.Settle | server.js:91-112 | the scan leaves the record `Game.Settle` describes; the winners list holds each user with a record and a guess equal to the answer exactly once, and nobody else; it is no longer than the number of guesses; scores stay valid |

## Left out

- Express setup, middleware, static files and `app.listen` (server.js:1-14, 115-117) are framework plumbing.
- `readDB` and `writeDB` and the creation of the database file (server.js:18-33) are file I/O. The record is held in memory. The fresh file's contents are the constant `Game.Initial`.
- Cookie parsing and setting, including the 90000000 ms `maxAge` (server.js:40, 70, 76), are not modelled. The identity is an optional string input, and `Login`'s reply is the cookie value it sets. The model assumes a cookie is read back exactly as it was set.
- HTTP status codes and response texts are not modelled. They become the `Error` values and the reply values.
- Request bodies whose fields are JSON values other than strings (numbers, booleans, objects) are not modelled. Neither are hand-edited files holding such values, or a missing `roundOpen`.
- Names that JavaScript objects inherit, such as `constructor`, `toString` and `__proto__`, are treated as ordinary keys. In the source, `db.users[name]` is already truthy for them.
- Leaderboard.Board: the relative order of tied scores is not specified. It follows the engine's stable sort over the `Object.entries` order: names that are array indices, such as "0" or "2024", first in ascending order, then the others in insertion order. The model states only sortedness and permutation.
- Server.Database.Settle: the order of the winners list is not specified. In the source it is the `Object.entries` order of `guesses`: names that are array indices (such as "0" or "2024") first in ascending order, then the others in insertion order. The model scans the guesses in an arbitrary order.
- Properties.LoginThenStatus: assumes the `username` cookie comes back exactly as `res.cookie` set it. cookie-parser (server.js:13, 40) reads a value starting with `j:` as JSON. A login as `j:1` therefore reads back as the number 1: status shows the caller logged in, but `currentUser` is 1 rather than `"j:1"`, and `myScore` comes from the record `"1"`. A login as `j:"bob"` reads back as `bob`. cookie-parser is not part of this model.
- Properties.ReachableScoresValid: scores are unbounded integers. The source stores them as JavaScript doubles, so `score += 10` (server.js:100) and the comparator `b.score - a.score` (server.js:45) are exact only up to about 2^53. This holds equally for Properties.RunKeepsScoresValid, Properties.RunKeepsUsers and Leaderboard.SortByScore. Reaching that bound would take far more rounds than any realistic game.
- Concurrent requests are not modelled: the source has no locking, and the model answers one request at a time.
