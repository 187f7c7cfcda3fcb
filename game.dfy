/** The game state of server.js and its four request handlers, as
    transitions on one value: the record read from and written back to the
    database file (server.js:19-23). */
module Game {
  import opened Leaderboard

  /** A request field or cookie that may be absent (JavaScript `undefined`). */
  datatype Option<T> = None | Some(value: T)

  /** The rejections of the handlers: 400, 401 and 403. */
  datatype Error = InvalidInput | Unauthenticated | RoundClosed

  datatype Result<T> = Ok(value: T) | Err(error: Error)

  /** The points a correct guess earns (server.js:100). */
  const Award: int := 10

  /** `users` maps a name to its score, `guesses` a name to its guess of the
      current round, `roundOpen` says whether guesses are admitted. */
  datatype Db = Db(users: map<string, int>, guesses: map<string, string>, roundOpen: bool)

  /** The record written when no database file exists yet (server.js:19-23). */
  const Initial: Db := Db(map[], map[], true)

  /** JavaScript truthiness of an optional string: absent and "" are falsy. */
  predicate Truthy(v: Option<string>)
  {
    v.Some? && v.value != ""
  }

  function Lookup<V>(m: map<string, V>, k: string): Option<V>
  {
    if k in m then Some(m[k]) else None
  }

  /** Every score is a non-negative multiple of the award. */
  predicate ScoresValid(users: map<string, int>)
  {
    forall u :: u in users ==> users[u] >= 0 && users[u] % Award == 0
  }

  /** A handler's reply together with the record it leaves behind. */
  datatype Step<T> = Step(reply: Result<T>, next: Db)

  // ---------------------------------------------------------------- status

  /** The JSON body of `GET /api/status`. */
  datatype StatusView = StatusView(
    isLoggedIn: bool,
    currentUser: Option<string>,
    myScore: int,
    myGuess: Option<string>,
    roundOpen: bool,
    leaderboard: seq<Entry>)

  /** `GET /api/status` for the caller whose cookie is `identity`
      (server.js:38-55). A stored empty guess is falsy and reads as null. */
  ghost function Status(db: Db, identity: Option<string>): (s: StatusView)
    ensures s.isLoggedIn <==> Truthy(identity)
    ensures s.currentUser == (if Truthy(identity) then identity else None)
    ensures s.myScore == (if Truthy(identity) && identity.value in db.users then db.users[identity.value] else 0)
    ensures s.myGuess.Some? <==> Truthy(identity) && identity.value in db.guesses && db.guesses[identity.value] != ""
    ensures s.myGuess.Some? ==> s.myGuess.value == db.guesses[identity.value]
    ensures s.roundOpen == db.roundOpen
    ensures Descending(s.leaderboard)
    ensures ListsAll(s.leaderboard, db.users)
  {
    var loggedIn := Truthy(identity);
    StatusView(
      loggedIn,
      if loggedIn then identity else None,
      if loggedIn then (match Lookup(db.users, identity.value) case Some(score) => score case None => 0) else 0,
      if loggedIn then (match Lookup(db.guesses, identity.value) case Some(g) => if g != "" then Some(g) else None case None => None) else None,
      db.roundOpen,
      Board(db.users))
  }

  // ----------------------------------------------------------------- login

  /** `POST /api/login` with body field `username` (server.js:58-72). On
      success the reply is the value of the `username` cookie it sets. */
  function Login(db: Db, username: Option<string>): (r: Step<string>)
    ensures r.reply.Err? <==> !Truthy(username)
    ensures r.reply.Err? ==> r.reply.error == InvalidInput && r.next == db
    ensures r.reply.Ok? ==> r.reply.value == username.value
    ensures r.next.guesses == db.guesses && r.next.roundOpen == db.roundOpen
    ensures r.next.users.Keys == db.users.Keys + (if Truthy(username) then {username.value} else {})
    ensures forall u :: u in db.users ==> r.next.users[u] == db.users[u]
    ensures Truthy(username) && username.value !in db.users ==> r.next.users[username.value] == 0
  {
    if !Truthy(username) then Step(Err(InvalidInput), db)
    else
      var name := username.value;
      if name in db.users then Step(Ok(name), db)
      else Step(Ok(name), db.(users := db.users[name := 0]))
  }

  // ----------------------------------------------------------------- guess

  /** `POST /api/guess` with cookie `identity` and body field `guess`
      (server.js:75-88). An absent `guess` is stored as `undefined`, which
      the JSON file does not keep, so the caller's guess disappears. */
  function SubmitGuess(db: Db, identity: Option<string>, guess: Option<string>): (r: Step<()>)
    ensures r.reply.Err? <==> !Truthy(identity) || !db.roundOpen
    ensures !Truthy(identity) ==> r.reply == Err(Unauthenticated)
    ensures Truthy(identity) && !db.roundOpen ==> r.reply == Err(RoundClosed)
    ensures r.reply.Err? ==> r.next == db
    ensures r.next.users == db.users && r.next.roundOpen == db.roundOpen
    ensures r.reply.Ok? ==> Lookup(r.next.guesses, identity.value) == guess
    ensures r.reply.Ok? ==> forall u :: u != identity.value ==> Lookup(r.next.guesses, u) == Lookup(db.guesses, u)
  {
    if !Truthy(identity) then Step(Err(Unauthenticated), db)
    else if !db.roundOpen then Step(Err(RoundClosed), db)
    else
      var name := identity.value;
      var guesses := match guess
        case Some(g) => db.guesses[name := g]
        case None => db.guesses - {name};
      Step(Ok(()), db.(guesses := guesses))
  }

  // ---------------------------------------------------------------- settle

  /** The users a settlement rewards: a guess strictly equal to the answer
      and a user record to credit (server.js:97-99). */
  function Winners(db: Db, answer: Option<string>): set<string>
  {
    set u | u in db.guesses && u in db.users && answer == Some(db.guesses[u])
  }

  /** `POST /api/admin/settle` with body field `correctAnswer`
      (server.js:91-112); the winners are `Winners(db, correctAnswer)`. */
  function Settle(db: Db, answer: Option<string>): (r: Db)
    ensures r.guesses == map[] && r.roundOpen
    ensures r.users.Keys == db.users.Keys
    ensures forall u :: u in db.users && u !in db.guesses ==> r.users[u] == db.users[u]
    ensures forall u :: u in db.users && u in db.guesses ==>
      r.users[u] == if answer == Some(db.guesses[u]) then db.users[u] + Award else db.users[u]
  {
    var won := Winners(db, answer);
    Db(map u | u in db.users :: if u in won then db.users[u] + Award else db.users[u], map[], true)
  }

  // -------------------------------------------------------------- requests

  /** The requests the server answers, each with the fields it reads. */
  datatype Request =
    | StatusRequest(identity: Option<string>)
    | LoginRequest(username: Option<string>)
    | GuessRequest(identity: Option<string>, guess: Option<string>)
    | SettleRequest(answer: Option<string>)

  /** The record after one request. */
  function Apply(db: Db, req: Request): Db
  {
    match req
    case StatusRequest(_) => db
    case LoginRequest(name) => Login(db, name).next
    case GuessRequest(id, g) => SubmitGuess(db, id, g).next
    case SettleRequest(a) => Settle(db, a)
  }

  /** The record after answering `reqs` one after another. */
  function Run(db: Db, reqs: seq<Request>): Db
    decreases |reqs|
  {
    if reqs == [] then db else Run(Apply(db, reqs[0]), reqs[1..])
  }
}
