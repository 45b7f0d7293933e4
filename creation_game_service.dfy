/** Creating a game: a title, a player limit and an existing creator are required. */
module CreationGameService {
  import opened Wrappers
  import opened Errors
  import opened Store

  /** The document `GameRepository.create` stores: nobody seated yet, no turn, no UNO declarations, no winner. */
  function NewGame(title: string, status: Status, maxPlayers: int, creator: Id): (g: Game)
    ensures g.players == [] && g.turnIndex.None? && g.unoStatus == map[] && g.winner.None?
    ensures g.title == title && g.status == status && g.maxPlayers == maxPlayers && g.creator == creator
  {
    Game(title, status, maxPlayers, [], None, creator, map[], None)
  }

  /**
   * `createGameService`: an empty title or a zero player limit is refused,
   * then the creator must be a user. `newId` is the identifier the store
   * assigns to the new document.
   */
  method CreateGame(db: Db, newId: Id, title: string, status: Status, maxPlayers: int, creator: Id)
    returns (r: Result<Game>)
    requires newId !in db.games
    modifies db`games
    ensures title == "" || maxPlayers == 0 ==>
      r == Err(ValidationError("Todos los campos son obligatorios")) && db.games == old(db.games)
    ensures title != "" && maxPlayers != 0 && FindUser(db.users, creator).None? ==>
      r == Err(NotFoundError("Jugador no encontrado")) && db.games == old(db.games)
    ensures r.Ok? <==> title != "" && maxPlayers != 0 && FindUser(db.users, creator).Some?
    ensures r.Ok? ==>
      && r.value == NewGame(title, status, maxPlayers, creator)
      && db.games == old(db.games)[newId := r.value]
  {
    if title == "" || maxPlayers == 0 {
      return Err(ValidationError("Todos los campos son obligatorios"));
    }
    var user := FindUser(db.users, creator);
    if user.None? {
      return Err(NotFoundError("Jugador no encontrado"));
    }
    var game := NewGame(title, status, maxPlayers, creator);
    db.games := db.games[newId := game];
    r := Ok(game);
  }
}
