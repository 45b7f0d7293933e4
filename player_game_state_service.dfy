/**
 * Readiness rows: one (user, game) pair and its `ready` flag. Setting a
 * player's readiness updates the row for that pair, or creates it when there
 * is none.
 */
module PlayerGameStateService {
  import opened Wrappers
  import opened Errors
  import opened Store

  /** `PlayerGameState.findOne({user, game})`: the first row for the pair. */
  function FindRow(rows: seq<ReadyRow>, user: Id, game: Id): (r: Option<nat>)
    ensures r.Some? ==> r.value < |rows| && rows[r.value].user == user && rows[r.value].game == game
    ensures r.Some? ==> forall j :: 0 <= j < r.value ==> !(rows[j].user == user && rows[j].game == game)
    ensures r.None? <==> forall j :: 0 <= j < |rows| ==> !(rows[j].user == user && rows[j].game == game)
    decreases |rows|
  {
    if rows == [] then None
    else if rows[0].user == user && rows[0].game == game then Some(0)
    else match FindRow(rows[1..], user, game)
      case None => None
      case Some(i) => Some(i + 1)
  }

  /** No pair has two rows. */
  ghost predicate OneRowPerPair(rows: seq<ReadyRow>)
  {
    forall i, j :: 0 <= i < j < |rows| ==> !(rows[i].user == rows[j].user && rows[i].game == rows[j].game)
  }

  /** The rows after setting `ready` for the pair: the existing row changes its flag, or a new row is appended. */
  function Upsert(rows: seq<ReadyRow>, user: Id, game: Id, ready: bool): seq<ReadyRow>
  {
    match FindRow(rows, user, game)
    case None => rows + [ReadyRow(user, game, ready)]
    case Some(i) => rows[i := rows[i].(ready := ready)]
  }

  /**
   * After an upsert the pair's row holds the new flag, every other row is as
   * before, a row is added only when the pair had none, and at most one row
   * per pair is kept.
   */
  lemma UpsertSpec(rows: seq<ReadyRow>, user: Id, game: Id, ready: bool)
    ensures var r := Upsert(rows, user, game, ready);
      && FindRow(r, user, game).Some?
      && r[FindRow(r, user, game).value] == ReadyRow(user, game, ready)
      && |r| == |rows| + (if FindRow(rows, user, game).None? then 1 else 0)
      && (forall j :: 0 <= j < |rows| && !(rows[j].user == user && rows[j].game == game) ==> r[j] == rows[j])
      && (OneRowPerPair(rows) ==> OneRowPerPair(r))
  {
    var r := Upsert(rows, user, game, ready);
    match FindRow(rows, user, game)
    case None =>
      assert r[|rows|] == ReadyRow(user, game, ready);
      assert FindRow(r, user, game) == Some(|rows|) by {
        FindRowAppend(rows, ReadyRow(user, game, ready), user, game);
      }
    case Some(i) =>
      assert FindRow(r, user, game) == Some(i) by {
        FindRowSameKeys(rows, r, user, game);
      }
  }

  lemma {:induction false} FindRowAppend(rows: seq<ReadyRow>, row: ReadyRow, user: Id, game: Id)
    requires FindRow(rows, user, game).None?
    requires row.user == user && row.game == game
    ensures FindRow(rows + [row], user, game) == Some(|rows|)
  {
    var r := FindRow(rows + [row], user, game);
    assert (rows + [row])[|rows|] == row;
  }

  lemma FindRowSameKeys(rows: seq<ReadyRow>, rows': seq<ReadyRow>, user: Id, game: Id)
    requires |rows| == |rows'|
    requires forall j :: 0 <= j < |rows| ==> rows[j].user == rows'[j].user && rows[j].game == rows'[j].game
    ensures FindRow(rows', user, game) == FindRow(rows, user, game)
  {
    var a := FindRow(rows, user, game);
    var b := FindRow(rows', user, game);
    if a.Some? && b.Some? {
      assert !(a.value < b.value) && !(b.value < a.value);
    }
  }

  /**
   * `updateReadyState`: both ids are required, the game is looked up before
   * the user, and on success the pair's row is created or its flag replaced.
   */
  method UpdateReadyState(db: Db, gameId: Id, userId: Id, ready: bool) returns (r: Result<ReadyRow>)
    modifies db`readiness
    ensures gameId == "" || userId == "" ==>
      r == Err(ValidationError("Faltan parámetros obligatorios")) && db.readiness == old(db.readiness)
    ensures gameId != "" && userId != "" && gameId !in db.games ==>
      r == Err(NotFoundError("Juego no encontrado")) && db.readiness == old(db.readiness)
    ensures gameId != "" && userId != "" && gameId in db.games && FindUser(db.users, userId).None? ==>
      r == Err(NotFoundError("Jugador no encontrado")) && db.readiness == old(db.readiness)
    ensures r.Ok? <==> gameId != "" && userId != "" && gameId in db.games && FindUser(db.users, userId).Some?
    ensures r.Ok? ==> db.readiness == Upsert(old(db.readiness), userId, gameId, ready)
    ensures r.Ok? ==> r.value == ReadyRow(userId, gameId, ready)
  {
    if gameId == "" || userId == "" {
      return Err(ValidationError("Faltan parámetros obligatorios"));
    }
    if gameId !in db.games {
      return Err(NotFoundError("Juego no encontrado"));
    }
    if FindUser(db.users, userId).None? {
      return Err(NotFoundError("Jugador no encontrado"));
    }
    var row: ReadyRow;
    var existing := FindRow(db.readiness, userId, gameId);
    if existing.None? {
      row := ReadyRow(userId, gameId, ready);
      db.readiness := db.readiness + [row];
    } else {
      row := db.readiness[existing.value].(ready := ready);
      db.readiness := db.readiness[existing.value := row];
    }
    r := Ok(row);
  }
}
