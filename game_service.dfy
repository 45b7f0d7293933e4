/**
 * The game lifecycle services: join and leave a game, end it, advance the
 * turn, and the read-only lookups of the current player, the status and the
 * players. The guards shared with the older service file and the start
 * service are defined here once.
 */
module GameService {
  import opened Wrappers
  import opened Errors
  import opened Js
  import opened Store
  import PlayerGameStateService

  // ---------------------------------------------------------------- guards

  /** The join guards: the game exists, the user is not seated yet and a seat is free. */
  function CheckJoin(games: map<Id, Game>, gameId: Id, userId: Id): (r: Result<Game>)
    ensures r.Ok? <==> gameId in games && userId !in games[gameId].players
                        && |games[gameId].players| < games[gameId].maxPlayers
    ensures r.Ok? ==> r.value == games[gameId]
    ensures gameId !in games ==> r == Err(NotFoundError("Game not found"))
    ensures gameId in games && userId in games[gameId].players ==>
      r == Err(ConflictError("You are already in this game"))
    ensures gameId in games && userId !in games[gameId].players
            && |games[gameId].players| >= games[gameId].maxPlayers ==>
      r == Err(ValidationError("The game is already full"))
  {
    if gameId !in games then Err(NotFoundError("Game not found"))
    else
      var g := games[gameId];
      if userId in g.players then Err(ConflictError("You are already in this game"))
      else if |g.players| >= g.maxPlayers then Err(ValidationError("The game is already full"))
      else Ok(g)
  }

  /** The leave guards: both ids present, a well-formed game id, the game exists and the user is seated. */
  function CheckLeave(games: map<Id, Game>, gameId: Id, userId: Id): (r: Result<Game>)
    ensures r.Ok? <==> gameId != "" && userId != "" && IsObjectIdString(gameId)
                        && gameId in games && userId in games[gameId].players
    ensures r.Ok? ==> r.value == games[gameId]
    ensures gameId == "" || userId == "" ==> r == Err(ValidationError("Missing required parameters"))
    ensures gameId != "" && userId != "" && !IsObjectIdString(gameId) ==>
      r == Err(ValidationError("Invalid game ID: " + gameId))
    ensures gameId != "" && userId != "" && IsObjectIdString(gameId) && gameId !in games ==>
      r == Err(NotFoundError("Game not found"))
    ensures gameId != "" && userId != "" && IsObjectIdString(gameId) && gameId in games
            && userId !in games[gameId].players ==>
      r == Err(ConflictError("You are not in this game"))
  {
    if gameId == "" || userId == "" then Err(ValidationError("Missing required parameters"))
    else if !IsObjectIdString(gameId) then Err(ValidationError("Invalid game ID: " + gameId))
    else if gameId !in games then Err(NotFoundError("Game not found"))
    else if userId !in games[gameId].players then Err(ConflictError("You are not in this game"))
    else Ok(games[gameId])
  }

  /**
   * The guards of a creator-only request (start, end): both parameters
   * present, the game exists, the token authenticates (`auth` is the
   * token's subject, None when it does not verify) and the subject is the
   * game's creator. `action` is the verb of the permission message.
   */
  function CheckCreator(games: map<Id, Game>, gameId: Id, token: string, auth: Option<Id>, action: string)
    : (r: Result<Game>)
    ensures r.Ok? <==> gameId != "" && token != "" && gameId in games && auth == Some(games[gameId].creator)
    ensures r.Ok? ==> r.value == games[gameId]
    ensures gameId == "" || token == "" ==> r == Err(ValidationError("Missing required parameters"))
    ensures gameId != "" && token != "" && gameId !in games ==> r == Err(NotFoundError("Game not found"))
    ensures gameId != "" && token != "" && gameId in games && auth.None? ==>
      r == Err(UnauthorizedError("Invalid or expired token"))
    ensures gameId != "" && token != "" && gameId in games && auth.Some? && auth.value != games[gameId].creator ==>
      r == Err(UnauthorizedError("You do not have permission to " + action + " this game"))
  {
    if gameId == "" || token == "" then Err(ValidationError("Missing required parameters"))
    else if gameId !in games then Err(NotFoundError("Game not found"))
    else if auth.None? then Err(UnauthorizedError("Invalid or expired token"))
    else if games[gameId].creator != auth.value then
      Err(UnauthorizedError("You do not have permission to " + action + " this game"))
    else Ok(games[gameId])
  }

  // ------------------------------------------------------------ seating

  /** `$pull`: every occurrence of `x` removed, the other seats in their order. */
  function Without(s: seq<Id>, x: Id): (r: seq<Id>)
    ensures x !in r
    ensures forall y :: y != x ==> multiset(r)[y] == multiset(s)[y]
    ensures |r| <= |s|
    ensures x !in s ==> r == s
  {
    if s == [] then []
    else
      assert s == [s[0]] + s[1..];
      if s[0] == x then Without(s[1..], x)
      else [s[0]] + Without(s[1..], x)
  }

  /** `$pull` works seat by seat: pulling from two stretches of seats and joining them keeps their order. */
  lemma {:induction false} WithoutAppend(s: seq<Id>, t: seq<Id>, x: Id)
    ensures Without(s + t, x) == Without(s, x) + Without(t, x)
  {
    if s == [] {
      assert s + t == t;
    } else {
      assert (s + t)[1..] == s[1..] + t;
      WithoutAppend(s[1..], t, x);
    }
  }

  /** Pulling a user who holds exactly one seat cuts out just that seat; the others keep their order. */
  lemma WithoutCut(s: seq<Id>, x: Id, i: nat)
    requires i < |s| && s[i] == x && x !in s[..i] + s[i + 1..]
    ensures Without(s, x) == s[..i] + s[i + 1..]
  {
    assert s == s[..i] + ([s[i]] + s[i + 1..]);
    WithoutAppend(s[..i], [s[i]] + s[i + 1..], x);
    WithoutAppend([s[i]], s[i + 1..], x);
    assert x !in s[..i] && x !in s[i + 1..];
  }

  /** `players.reverse()`. */
  function Reverse(s: seq<Id>): (r: seq<Id>)
    ensures |r| == |s|
    ensures forall i :: 0 <= i < |s| ==> r[i] == s[|s| - 1 - i]
  {
    if s == [] then [] else Reverse(s[1..]) + [s[0]]
  }

  // ------------------------------------------------------------ turn order

  /** The turn index read as 0 when unset. */
  function TurnOrZero(t: Option<int>): int
  {
    if t.Some? then t.value else 0
  }

  /**
   * The seat the turn passes to among `n` players: one seat on, or two when
   * skipping, each step wrapping with JavaScript's remainder.
   */
  function NextTurnIndex(turnIndex: Option<int>, n: int, skip: bool): (r: int)
    requires n > 0
    ensures TurnOrZero(turnIndex) >= -1 ==> 0 <= r < n
  {
    var once := Rem(TurnOrZero(turnIndex) + 1, n);
    if skip then Rem(once + 1, n) else once
  }

  /** From a valid seat the turn moves exactly one seat on, or two when skipping, modulo the player count. */
  lemma NextTurnAdvances(t: int, n: int, skip: bool)
    requires n > 0 && 0 <= t
    ensures NextTurnIndex(Some(t), n, skip) == (t + (if skip then 2 else 1)) % n
  {
    if skip {
      ModStep(t + 1, n);
      ModStep(t, n);
    }
  }

  /** Adding one moves a remainder one step around the circle of `n` seats. */
  lemma ModStep(a: int, n: int)
    requires n > 0 && 0 <= a
    ensures (a + 1) % n == (a % n + 1) % n
  {
    var q, r := a / n, a % n;
    assert a == n * q + r;
    if r + 1 < n {
      DivModUnique(a + 1, n, q, r + 1);
      DivModUnique(r + 1, n, 0, r + 1);
    } else {
      assert a + 1 == n * (q + 1) + 0;
      DivModUnique(a + 1, n, q + 1, 0);
      DivModUnique(r + 1, n, 1, 0);
    }
  }

  lemma MulBounds(n: int, d: int)
    requires n > 0
    ensures d >= 1 ==> n * d >= n
    ensures d <= -1 ==> n * d <= -n
  {
    if d >= 1 {
      assert n * d == n + n * (d - 1);
    } else if d <= -1 {
      assert n * d == -n + n * (d + 1);
    }
  }

  lemma DivModUnique(a: int, n: int, q: int, r: int)
    requires n > 0 && 0 <= r < n && a == n * q + r
    ensures a % n == r
  {
    var q', r' := a / n, a % n;
    assert n * q' + r' == n * q + r;
    assert n * (q - q') == r' - r;
    MulBounds(n, q - q');
  }

  /**
   * `getNextPlayerService`: the game's turn index moves on (an unset one
   * counts as 0) and is the only field written; the occupant of the new seat
   * is returned.
   */
  method GetNextPlayer(db: Db, gameId: Id, skip: bool) returns (r: Result<Id>)
    modifies db`games
    ensures gameId !in old(db.games) ==>
      r == Err(PlainError("Juego no encontrado.")) && db.games == old(db.games)
    ensures gameId in old(db.games) && old(db.games)[gameId].players == [] ==>
      r == Err(PlainError("No hay jugadores en la partida.")) && db.games == old(db.games)
    ensures gameId in old(db.games) && old(db.games)[gameId].players != [] ==>
      var g := old(db.games)[gameId];
      var t := NextTurnIndex(g.turnIndex, |g.players|, skip);
      && db.games == old(db.games)[gameId := g.(turnIndex := Some(t))]
      && (0 <= t < |g.players| ==> r == Ok(g.players[t]))
      && (!(0 <= t < |g.players|) ==> r == Err(TypeError()))
  {
    if gameId !in db.games {
      return Err(PlainError("Juego no encontrado."));
    }
    var game := db.games[gameId];
    if game.players == [] {
      return Err(PlainError("No hay jugadores en la partida."));
    }
    var players := game.players;
    var turnIndex := TurnOrZero(game.turnIndex);
    turnIndex := Rem(turnIndex + 1, |players|);
    if skip {
      turnIndex := Rem(turnIndex + 1, |players|);
    }
    db.games := db.games[gameId := game.(turnIndex := Some(turnIndex))];
    if 0 <= turnIndex < |players| {
      r := Ok(players[turnIndex]);
    } else {
      r := Err(TypeError());
    }
  }

  // ------------------------------------------------------------ lifecycle

  /**
   * `joinGameService`: after the join guards, the user's readiness row is
   * set to not ready (which also needs the user to exist), then the user
   * takes the last seat.
   */
  method JoinGame(db: Db, gameId: Id, userId: Id) returns (r: Result<Game>)
    modifies db`games, db`readiness
    ensures CheckJoin(old(db.games), gameId, userId).Err? ==>
      r == Err(CheckJoin(old(db.games), gameId, userId).error)
      && db.games == old(db.games) && db.readiness == old(db.readiness)
    ensures CheckJoin(old(db.games), gameId, userId).Ok? && (gameId == "" || userId == "" || FindUser(db.users, userId).None?) ==>
      r.Err? && IsValidationOrNotFound(r.error) && db.games == old(db.games) && db.readiness == old(db.readiness)
    ensures r.Ok? <==> CheckJoin(old(db.games), gameId, userId).Ok? && gameId != "" && userId != ""
                        && FindUser(db.users, userId).Some?
    ensures r.Ok? ==>
      var g := old(db.games)[gameId];
      && r.value == g.(players := g.players + [userId])
      && db.games == old(db.games)[gameId := r.value]
      && db.readiness == PlayerGameStateService.Upsert(old(db.readiness), userId, gameId, false)
  {
    var check := CheckJoin(db.games, gameId, userId);
    if check.Err? {
      return Err(check.error);
    }
    var ready := PlayerGameStateService.UpdateReadyState(db, gameId, userId, false);
    if ready.Err? {
      return Err(ready.error);
    }
    var game := db.games[gameId];
    var updated := game.(players := game.players + [userId]);
    db.games := db.games[gameId := updated];
    r := Ok(updated);
  }

  predicate IsValidationOrNotFound(e: Error)
  {
    IsValidation(e) || IsNotFound(e)
  }

  /** `leaveGameService`: after the leave guards, the user no longer holds any seat. */
  method LeaveGame(db: Db, gameId: Id, userId: Id) returns (r: Result<Game>)
    modifies db`games
    ensures CheckLeave(old(db.games), gameId, userId).Err? ==>
      r == Err(CheckLeave(old(db.games), gameId, userId).error) && db.games == old(db.games)
    ensures CheckLeave(old(db.games), gameId, userId).Ok? ==>
      var g := old(db.games)[gameId];
      && r == Ok(g.(players := Without(g.players, userId)))
      && db.games == old(db.games)[gameId := r.value]
      && userId !in db.games[gameId].players
  {
    var check := CheckLeave(db.games, gameId, userId);
    if check.Err? {
      return Err(check.error);
    }
    var game := check.value;
    var updated := game.(players := Without(game.players, userId));
    db.games := db.games[gameId := updated];
    r := Ok(updated);
  }

  /** `endGameService`: creator only, and only a started game can be finished. */
  method EndGame(db: Db, gameId: Id, token: string, auth: Option<Id>) returns (r: Result<Game>)
    modifies db`games
    ensures CheckCreator(old(db.games), gameId, token, auth, "end").Err? ==>
      r == Err(CheckCreator(old(db.games), gameId, token, auth, "end").error) && db.games == old(db.games)
    ensures CheckCreator(old(db.games), gameId, token, auth, "end").Ok? && old(db.games)[gameId].status != Started ==>
      r == Err(ValidationError("The game is not in progress")) && db.games == old(db.games)
    ensures r.Ok? <==> CheckCreator(old(db.games), gameId, token, auth, "end").Ok? && old(db.games)[gameId].status == Started
    ensures r.Ok? ==>
      && r.value == old(db.games)[gameId].(status := Finished)
      && db.games == old(db.games)[gameId := r.value]
  {
    var check := CheckCreator(db.games, gameId, token, auth, "end");
    if check.Err? {
      return Err(check.error);
    }
    if check.value.status != Started {
      return Err(ValidationError("The game is not in progress"));
    }
    var updated := check.value.(status := Finished);
    db.games := db.games[gameId := updated];
    r := Ok(updated);
  }

  // ------------------------------------------------------------ lookups

  /** A seat as `populate("players", "name")` shows it. */
  datatype PlayerRef = PlayerRef(name: string, id: Id)

  /** The reference names an existing user by its id and name. */
  predicate IsNamed(users: seq<User>, ref: PlayerRef)
  {
    FindUser(users, ref.id).Some? && FindUser(users, ref.id).value.name == ref.name
  }

  /** `populate`: the seats whose user exists, with the user's name, in seating order. */
  function Populate(players: seq<Id>, users: seq<User>): (r: seq<PlayerRef>)
    ensures |r| <= |players|
    ensures forall i :: 0 <= i < |r| ==> r[i].id in players && IsNamed(users, r[i])
    ensures (forall p :: p in players ==> FindUser(users, p).Some?) ==> |r| == |players|
    ensures (forall p :: p in players ==> FindUser(users, p).Some?) ==>
      forall i :: 0 <= i < |players| ==>
        r[i].id == players[i] && r[i].name == FindUser(users, players[i]).value.name
  {
    if players == [] then []
    else
      var rest := Populate(players[1..], users);
      match FindUser(users, players[0])
      case None => rest
      case Some(u) => [PlayerRef(u.name, u.id)] + rest
  }

  /**
   * `getCurrentPlayerService`: the name and id of the populated seat at the
   * turn index of a started game.
   */
  function CurrentPlayer(games: map<Id, Game>, users: seq<User>, gameId: Id): (r: Result<PlayerRef>)
    ensures gameId == "" ==> r == Err(ValidationError("game_id is required"))
    ensures gameId != "" && gameId !in games ==> r == Err(NotFoundError("Game not found"))
    ensures gameId != "" && gameId in games && games[gameId].status != Started ==>
      r == Err(ValidationError("The game is not in progress"))
    ensures r.Ok? <==>
      gameId != "" && gameId in games && games[gameId].status == Started
      && games[gameId].turnIndex.Some?
      && 0 <= games[gameId].turnIndex.value < |Populate(games[gameId].players, users)|
    ensures r.Ok? ==>
      r.value == Populate(games[gameId].players, users)[games[gameId].turnIndex.value]
      && r.value.id in games[gameId].players
    ensures r.Ok? && (forall p :: p in games[gameId].players ==> FindUser(users, p).Some?) ==>
      var seat := games[gameId].players[games[gameId].turnIndex.value];
      r.value.id == seat && r.value.name == FindUser(users, seat).value.name
    ensures r.Err? && gameId != "" && gameId in games && games[gameId].status == Started ==>
      IsValidation(r.error)
  {
    if gameId == "" then Err(ValidationError("game_id is required"))
    else if gameId !in games then Err(NotFoundError("Game not found"))
    else
      var g := games[gameId];
      var seats := Populate(g.players, users);
      if g.status != Started then Err(ValidationError("The game is not in progress"))
      else if |seats| == 0 then Err(ValidationError("There are no players in this game"))
      else if g.turnIndex.None? || !(0 <= g.turnIndex.value < |seats|) then
        Err(ValidationError("No valid player in this turn"))
      else Ok(seats[g.turnIndex.value])
  }

  /** `getSatusByIdService`: the game's status, or NotFound. */
  function GameStatus(games: map<Id, Game>, gameId: Id): (r: Result<Status>)
    ensures r.Ok? <==> gameId in games
    ensures r.Ok? ==> r.value == games[gameId].status
    ensures r.Err? ==> r.error == NotFoundError("Game not found")
  {
    if gameId in games then Ok(games[gameId].status) else Err(NotFoundError("Game not found"))
  }

  /** `getUserByIdService`: the game's players, unchanged, or NotFound. */
  function GamePlayers(games: map<Id, Game>, gameId: Id): (r: Result<seq<Id>>)
    ensures r.Ok? <==> gameId in games
    ensures r.Ok? ==> r.value == games[gameId].players
    ensures r.Err? ==> r.error == NotFoundError("Game not found")
  {
    if gameId in games then Ok(games[gameId].players) else Err(NotFoundError("Game not found"))
  }
}
