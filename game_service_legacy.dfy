/**
 * The older game service: the same lifecycle without readiness bookkeeping
 * on join and without dealing on start, plus the administrative listing,
 * patching and deletion of games. Leave, end, status and player lookups are
 * identical to those of `GameService` and are not repeated here.
 */
module LegacyGameService {
  import opened Wrappers
  import opened Errors
  import opened Store
  import GameService
  import StartGameService

  /** `createGameService`: every field must be truthy and the creator must be a user. */
  method CreateGame(db: Db, newId: Id, title: string, status: Status, maxPlayers: int, creator: Id)
    returns (r: Result<Game>)
    requires newId !in db.games
    modifies db`games
    ensures title == "" || status == Unset || maxPlayers == 0 || creator == "" ==>
      r == Err(ValidationError("All fields are required")) && db.games == old(db.games)
    ensures title != "" && status != Unset && maxPlayers != 0 && creator != "" && FindUser(db.users, creator).None? ==>
      r == Err(NotFoundError("Player not found")) && db.games == old(db.games)
    ensures r.Ok? <==> title != "" && status != Unset && maxPlayers != 0 && creator != ""
                        && FindUser(db.users, creator).Some?
    ensures r.Ok? ==>
      && r.value == Game(title, status, maxPlayers, [], None, creator, map[], None)
      && db.games == old(db.games)[newId := r.value]
  {
    if title == "" || status == Unset || maxPlayers == 0 || creator == "" {
      return Err(ValidationError("All fields are required"));
    }
    if FindUser(db.users, creator).None? {
      return Err(NotFoundError("Player not found"));
    }
    var game := Game(title, status, maxPlayers, [], None, creator, map[], None);
    db.games := db.games[newId := game];
    r := Ok(game);
  }

  /** `joinGameService`: the join guards, then the user takes the last seat; no readiness row is written. */
  method JoinGame(db: Db, gameId: Id, userId: Id) returns (r: Result<Game>)
    modifies db`games
    ensures GameService.CheckJoin(old(db.games), gameId, userId).Err? ==>
      r == Err(GameService.CheckJoin(old(db.games), gameId, userId).error) && db.games == old(db.games)
    ensures GameService.CheckJoin(old(db.games), gameId, userId).Ok? ==>
      var g := old(db.games)[gameId];
      && r == Ok(g.(players := g.players + [userId]))
      && db.games == old(db.games)[gameId := r.value]
      && |db.games[gameId].players| <= db.games[gameId].maxPlayers
  {
    var check := GameService.CheckJoin(db.games, gameId, userId);
    if check.Err? {
      return Err(check.error);
    }
    var updated := check.value.(players := check.value.players + [userId]);
    db.games := db.games[gameId := updated];
    r := Ok(updated);
  }

  /**
   * `startGameService`: creator only; every readiness row of the game must
   * be ready (a game without rows passes); only the status changes.
   */
  method StartGame(db: Db, gameId: Id, token: string, auth: Option<Id>) returns (r: Result<Game>)
    modifies db`games
    ensures GameService.CheckCreator(old(db.games), gameId, token, auth, "start").Err? ==>
      r == Err(GameService.CheckCreator(old(db.games), gameId, token, auth, "start").error)
      && db.games == old(db.games)
    ensures GameService.CheckCreator(old(db.games), gameId, token, auth, "start").Ok?
            && !StartGameService.AllReady(StartGameService.GameRows(db.readiness, gameId)) ==>
      r == Err(ValidationError("Not all players are ready")) && db.games == old(db.games)
    ensures r.Ok? <==> GameService.CheckCreator(old(db.games), gameId, token, auth, "start").Ok?
                        && StartGameService.AllReady(StartGameService.GameRows(db.readiness, gameId))
    ensures r.Ok? ==>
      && r.value == old(db.games)[gameId].(status := Started)
      && db.games == old(db.games)[gameId := r.value]
  {
    var check := GameService.CheckCreator(db.games, gameId, token, auth, "start");
    if check.Err? {
      return Err(check.error);
    }
    if !StartGameService.AllReady(StartGameService.GameRows(db.readiness, gameId)) {
      return Err(ValidationError("Not all players are ready"));
    }
    var updated := check.value.(status := Started);
    db.games := db.games[gameId := updated];
    r := Ok(updated);
  }

  /** `getCurrentPlayerService`: the same checks as the newer service, answering with the name only. */
  function CurrentPlayerName(games: map<Id, Game>, users: seq<User>, gameId: Id): (r: Result<string>)
    ensures r.Ok? <==> GameService.CurrentPlayer(games, users, gameId).Ok?
    ensures r.Ok? ==> r.value == GameService.CurrentPlayer(games, users, gameId).value.name
    ensures r.Err? ==> r.error == GameService.CurrentPlayer(games, users, gameId).error
    ensures r.Ok? && (forall p :: p in games[gameId].players ==> FindUser(users, p).Some?) ==>
      r.value == FindUser(users, games[gameId].players[games[gameId].turnIndex.value]).value.name
  {
    match GameService.CurrentPlayer(games, users, gameId)
    case Ok(p) => Ok(p.name)
    case Err(e) => Err(e)
  }

  /** `getAllGamesService`: every game, or NotFound when there is none. */
  function AllGames(games: map<Id, Game>): (r: Result<map<Id, Game>>)
    ensures r.Ok? <==> |games| > 0
    ensures r.Ok? ==> r.value == games
    ensures r.Err? ==> r.error == NotFoundError("No games found")
  {
    if |games| == 0 then Err(NotFoundError("No games found")) else Ok(games)
  }

  /** `getGameByIdService`. */
  function GameById(games: map<Id, Game>, id: Id): (r: Result<Game>)
    ensures r.Ok? <==> id in games
    ensures r.Ok? ==> r.value == games[id]
    ensures r.Err? ==> r.error == NotFoundError("Game not found")
  {
    if id in games then Ok(games[id]) else Err(NotFoundError("Game not found"))
  }

  /** The fields an update request sets; absent fields keep their value. */
  datatype Patch = Patch(
    title: Option<string>,
    status: Option<Status>,
    maxPlayers: Option<int>,
    players: Option<seq<Id>>,
    turnIndex: Option<Option<int>>,
    creator: Option<Id>,
    unoStatus: Option<map<Id, bool>>,
    winner: Option<Option<Id>>)

  function Pick<T>(field: Option<T>, current: T): T
  {
    if field.Some? then field.value else current
  }

  /** The document after `findByIdAndUpdate(id, updates)`. */
  function ApplyPatch(g: Game, p: Patch): (g': Game)
    ensures p.title.Some? ==> g'.title == p.title.value
    ensures p.title.None? ==> g'.title == g.title
    ensures p.players.Some? ==> g'.players == p.players.value
    ensures p.players.None? ==> g'.players == g.players
    ensures p.status.Some? ==> g'.status == p.status.value
    ensures p.status.None? ==> g'.status == g.status
    ensures p.maxPlayers.Some? ==> g'.maxPlayers == p.maxPlayers.value
    ensures p.maxPlayers.None? ==> g'.maxPlayers == g.maxPlayers
    ensures p.turnIndex.Some? ==> g'.turnIndex == p.turnIndex.value
    ensures p.turnIndex.None? ==> g'.turnIndex == g.turnIndex
    ensures p.creator.Some? ==> g'.creator == p.creator.value
    ensures p.creator.None? ==> g'.creator == g.creator
    ensures p.winner.Some? ==> g'.winner == p.winner.value
    ensures p.winner.None? ==> g'.winner == g.winner
    ensures p.unoStatus.Some? ==> g'.unoStatus == p.unoStatus.value
    ensures p.unoStatus.None? ==> g'.unoStatus == g.unoStatus
  {
    g.(title := Pick(p.title, g.title), status := Pick(p.status, g.status),
       maxPlayers := Pick(p.maxPlayers, g.maxPlayers), players := Pick(p.players, g.players),
       turnIndex := Pick(p.turnIndex, g.turnIndex), creator := Pick(p.creator, g.creator),
       unoStatus := Pick(p.unoStatus, g.unoStatus), winner := Pick(p.winner, g.winner))
  }

  /** Applying the same update twice is the same as applying it once; an empty update changes nothing. */
  lemma PatchIdempotent(g: Game, p: Patch)
    ensures ApplyPatch(ApplyPatch(g, p), p) == ApplyPatch(g, p)
    ensures ApplyPatch(g, Patch(None, None, None, None, None, None, None, None)) == g
  {
  }

  /** `updateGameService`: the patched game, or NotFound. */
  method UpdateGame(db: Db, id: Id, patch: Patch) returns (r: Result<Game>)
    modifies db`games
    ensures id !in old(db.games) ==> r == Err(NotFoundError("Game not found")) && db.games == old(db.games)
    ensures id in old(db.games) ==>
      && r == Ok(ApplyPatch(old(db.games)[id], patch))
      && db.games == old(db.games)[id := r.value]
  {
    if id !in db.games {
      return Err(NotFoundError("Game not found"));
    }
    var updated := ApplyPatch(db.games[id], patch);
    db.games := db.games[id := updated];
    r := Ok(updated);
  }

  /** `deleteGameService`: the game is removed and returned, or NotFound. */
  method DeleteGame(db: Db, id: Id) returns (r: Result<Game>)
    modifies db`games
    ensures id !in old(db.games) ==> r == Err(NotFoundError("Game not found")) && db.games == old(db.games)
    ensures id in old(db.games) ==>
      && r == Ok(old(db.games)[id])
      && db.games == old(db.games) - {id}
      && id !in db.games
  {
    if id !in db.games {
      return Err(NotFoundError("Game not found"));
    }
    r := Ok(db.games[id]);
    db.games := db.games - {id};
  }
}
