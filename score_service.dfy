/**
 * Scores: the final standings written when a game is won, the per-game
 * score table by player name, and the administrative lookups, updates and
 * deletions of single score records.
 */
module ScoreService {
  import opened Wrappers
  import opened Errors
  import opened Js
  import opened Store
  import ScoreValidator
  import BonusScoreStrategy

  /** The invalid-winner message, with the accented letter as the source file spells it. */
  const WinnerInvalid: string := "El ganador no es v\U{C3}\U{A1}lido."

  /** The key JavaScript uses for an empty podium place; it never reaches the result. */
  const Placeholder: Id := "default"

  /** The players other than the winner (and other than empty ids), in seating order. */
  function NonWinners(players: seq<Id>, winner: Id): (r: seq<Id>)
    ensures forall p :: p in r <==> p in players && p != "" && p != winner
    ensures |r| <= |players|
  {
    if players == [] then []
    else
      var rest := NonWinners(players[1..], winner);
      assert players == [players[0]] + players[1..];
      if players[0] != "" && players[0] != winner then [players[0]] + rest else rest
  }

  /** The first runner-up is the first seat, in seating order, that is neither empty nor the winner. */
  lemma {:induction false} FirstRunnerUp(players: seq<Id>, winner: Id)
    requires NonWinners(players, winner) != []
    ensures exists i :: 0 <= i < |players| && players[i] == NonWinners(players, winner)[0]
                        && Beaten(players[..i], winner)
  {
    if players[0] != "" && players[0] != winner {
      assert players[..0] == [];
    } else {
      FirstRunnerUp(players[1..], winner);
      var i :| 0 <= i < |players[1..]| && players[1..][i] == NonWinners(players[1..], winner)[0]
               && Beaten(players[1..][..i], winner);
      assert players[..i + 1] == [players[0]] + players[1..][..i];
    }
  }

  /** Every seat in `s` is the winner or empty. */
  predicate Beaten(s: seq<Id>, winner: Id)
  {
    forall p :: p in s ==> p == "" || p == winner
  }

  /**
   * The final standings: 10 for the winner, 5 for the first other player in
   * seating order, 3 for the second, nothing for the rest; empty podium
   * places are dropped.
   */
  function Standings(players: seq<Id>, winner: Id): (r: map<Id, int>)
    ensures Placeholder !in r
    ensures winner != Placeholder ==> winner in r && r[winner] == 10
    ensures forall p :: p in r ==> p == winner || p == Place(NonWinners(players, winner), 0)
                                   || p == Place(NonWinners(players, winner), 1)
    ensures forall p :: p in r ==> r[p] == 10 || r[p] == 5 || r[p] == 3
  {
    var others := NonWinners(players, winner);
    var first := Place(others, 0);
    var second := Place(others, 1);
    PlaceNotWinner(players, winner, 0);
    PlaceNotWinner(players, winner, 1);
    map[winner := 10][first := 5][second := 3] - {Placeholder}
  }

  /** The `k`-th runner-up, or the placeholder when there are not that many players. */
  function Place(others: seq<Id>, k: nat): Id
  {
    if k < |others| then others[k] else Placeholder
  }

  lemma PlaceNotWinner(players: seq<Id>, winner: Id, k: nat)
    ensures winner != Placeholder ==> Place(NonWinners(players, winner), k) != winner
  {
    var others := NonWinners(players, winner);
    if k < |others| {
      assert others[k] in others;
    }
  }

  /**
   * With distinct seats and real ids the standings are exactly: the winner
   * 10, the first runner-up 5, the second runner-up 3; a lone winner gets
   * `{winner: 10}`.
   */
  lemma StandingsRanks(players: seq<Id>, winner: Id)
    requires winner != Placeholder && Placeholder !in players
    requires Distinct(players)
    ensures var others := NonWinners(players, winner);
      && (|others| == 0 ==> Standings(players, winner) == map[winner := 10])
      && (|others| == 1 ==> Standings(players, winner) == map[winner := 10, others[0] := 5])
      && (|others| >= 2 ==> Standings(players, winner) == map[winner := 10, others[0] := 5, others[1] := 3])
  {
    var others := NonWinners(players, winner);
    var r := Standings(players, winner);
    if |others| == 0 {
      assert r == map[winner := 10][Placeholder := 3] - {Placeholder};
    } else if |others| == 1 {
      assert others[0] in others;
      assert r == map[winner := 10][others[0] := 5][Placeholder := 3] - {Placeholder};
    } else {
      assert others[0] in others && others[1] in others;
      NonWinnersDistinct(players, winner);
      assert r == map[winner := 10][others[0] := 5][others[1] := 3] - {Placeholder};
    }
  }

  lemma {:induction false} NonWinnersDistinct(players: seq<Id>, winner: Id)
    requires Distinct(players)
    ensures Distinct(NonWinners(players, winner))
  {
    if players != [] {
      var tail := players[1..];
      assert Distinct(tail) by {
        forall i, j | 0 <= i < j < |tail| ensures tail[i] != tail[j] {
          assert tail[i] == players[i + 1] && tail[j] == players[j + 1];
        }
      }
      NonWinnersDistinct(tail, winner);
      assert players[0] !in tail by {
        forall k | 0 <= k < |tail| ensures tail[k] != players[0] {
          assert tail[k] == players[k + 1];
        }
      }
      var rest := NonWinners(tail, winner);
      assert players[0] !in rest;
      if players[0] != "" && players[0] != winner {
        var r := [players[0]] + rest;
        forall i, j | 0 <= i < j < |r| ensures r[i] != r[j] {
          if i == 0 {
            assert r[j] == rest[j - 1] && rest[j - 1] in rest;
          } else {
            assert r[i] == rest[i - 1] && r[j] == rest[j - 1];
          }
        }
      }
    }
  }

  /** The scores of one game, oldest record first. */
  function ScoresOf(scores: seq<ScoreRecord>, gameId: Id): (r: seq<ScoreRecord>)
    ensures forall s :: s in r <==> s in scores && s.gameId == gameId
  {
    if scores == [] then []
    else
      var n := |scores| - 1;
      assert scores == scores[..n] + [scores[n]];
      ScoresOf(scores[..n], gameId) + (if scores[n].gameId == gameId then [scores[n]] else [])
  }

  /**
   * `calculateFinalScores`: the game, a winner and at least one player are
   * required; one score record is written per entry of the standings (in
   * no promised order), and the standings are returned.
   */
  method CalculateFinalScores(db: Db, gameId: Id, winnerId: Id) returns (r: Result<map<Id, int>>)
    modifies db`scores, db`nextScoreId
    ensures gameId !in db.games ==> r == Err(ValidationError("Juego no encontrado."))
    ensures gameId in db.games && winnerId == "" ==> r == Err(ValidationError(WinnerInvalid))
    ensures gameId in db.games && winnerId != "" && db.games[gameId].players == [] ==>
      r == Err(ValidationError("No hay jugadores en la partida."))
    ensures r.Ok? <==> gameId in db.games && winnerId != "" && db.games[gameId].players != []
    ensures r.Err? ==> db.scores == old(db.scores)
    ensures r.Ok? ==> r.value == Standings(db.games[gameId].players, winnerId)
    ensures r.Ok? ==> WritesStandings(old(db.scores), db.scores, gameId, r.value)
  {
    if gameId !in db.games {
      return Err(ValidationError("Juego no encontrado."));
    }
    if winnerId == "" {
      return Err(ValidationError(WinnerInvalid));
    }
    var game := db.games[gameId];
    if game.players == [] {
      return Err(ValidationError("No hay jugadores en la partida."));
    }
    var standings := Standings(game.players, winnerId);
    WriteStandings(db, gameId, standings);
    r := Ok(standings);
  }

  /** Stores one score record per standing; Promise.all gives no order, so none is chosen here. */
  method WriteStandings(db: Db, gameId: Id, standings: map<Id, int>)
    modifies db`scores, db`nextScoreId
    ensures WritesStandings(old(db.scores), db.scores, gameId, standings)
  {
    var pending := standings.Keys;
    ghost var before := db.scores;
    while pending != {}
      invariant Writing(before, db.scores, gameId, standings, pending)
      decreases pending
    {
      var p :| p in pending;
      var record := ScoreRecord(db.nextScoreId, p, gameId, standings[p]);
      WritingStep(before, db.scores, gameId, standings, pending, record);
      db.scores := db.scores + [record];
      db.nextScoreId := db.nextScoreId + 1;
      pending := pending - {p};
    }
  }

  /** Part way through WriteStandings: the standings not `pending` have been recorded after `before`. */
  ghost predicate Writing(before: seq<ScoreRecord>, after: seq<ScoreRecord>, gameId: Id,
                          standings: map<Id, int>, pending: set<Id>)
  {
    && pending <= standings.Keys
    && |after| >= |before| && after[..|before|] == before
    && (forall i :: |before| <= i < |after| ==> Records(after[i], gameId, standings))
    && PlayersOf(after[|before|..]) == standings.Keys - pending
    && |after| - |before| + |pending| == |standings.Keys|
  }

  /** Recording one pending standing moves it out of `pending`. */
  lemma WritingStep(before: seq<ScoreRecord>, after: seq<ScoreRecord>, gameId: Id,
                    standings: map<Id, int>, pending: set<Id>, record: ScoreRecord)
    requires Writing(before, after, gameId, standings, pending)
    requires record.playerId in pending && Records(record, gameId, standings)
    ensures Writing(before, after + [record], gameId, standings, pending - {record.playerId})
  {
    assert (after + [record])[|before|..] == after[|before|..] + [record];
    PlayersOfSnoc(after[|before|..], record);
  }

  /** The record belongs to the game and carries its player's standing. */
  predicate Records(s: ScoreRecord, gameId: Id, standings: map<Id, int>)
  {
    s.gameId == gameId && s.playerId in standings && s.score == standings[s.playerId]
  }

  /** The players the records are about. */
  function PlayersOf(s: seq<ScoreRecord>): set<Id>
  {
    if s == [] then {} else PlayersOf(s[..|s| - 1]) + {s[|s| - 1].playerId}
  }

  lemma PlayersOfSnoc(s: seq<ScoreRecord>, x: ScoreRecord)
    ensures PlayersOf(s + [x]) == PlayersOf(s) + {x.playerId}
  {
    assert (s + [x])[..|s|] == s;
  }

  /** `after` is `before` plus one record per standing, each with that standing's value. */
  ghost predicate WritesStandings(before: seq<ScoreRecord>, after: seq<ScoreRecord>, gameId: Id, standings: map<Id, int>)
  {
    && |after| == |before| + |standings|
    && after[..|before|] == before
    && (forall i :: |before| <= i < |after| ==> Records(after[i], gameId, standings))
    && PlayersOf(after[|before|..]) == standings.Keys
  }

  /** `createScore`: the input is validated, then the bonus strategy's score is stored. */
  method CreateScore(db: Db, playerId: Id, gameId: Id, baseScore: JsValue, bonus: Option<int>)
    returns (r: Result<ScoreRecord>)
    modifies db`scores, db`nextScoreId
    ensures ScoreValidator.ValidateScoreData(playerId, gameId, baseScore).Some? ==>
      r == Err(ScoreValidator.ValidateScoreData(playerId, gameId, baseScore).value)
      && db.scores == old(db.scores) && db.nextScoreId == old(db.nextScoreId)
    ensures ScoreValidator.ValidateScoreData(playerId, gameId, baseScore).None? ==>
      && r == Ok(ScoreRecord(old(db.nextScoreId), playerId, gameId,
                             BonusScoreStrategy.CalculateScore(baseScore.n, bonus)))
      && db.scores == old(db.scores) + [r.value]
      && db.nextScoreId == old(db.nextScoreId) + 1
  {
    var invalid := ScoreValidator.ValidateScoreData(playerId, gameId, baseScore);
    if invalid.Some? {
      return Err(invalid.value);
    }
    var finalScore := BonusScoreStrategy.CalculateScore(baseScore.n, bonus);
    var record := ScoreRecord(db.nextScoreId, playerId, gameId, finalScore);
    db.scores := db.scores + [record];
    db.nextScoreId := db.nextScoreId + 1;
    r := Ok(record);
  }

  /** `getAllScores`: every record, or NotFound when there is none. */
  function GetAllScores(scores: seq<ScoreRecord>): (r: Result<seq<ScoreRecord>>)
    ensures r.Ok? <==> scores != []
    ensures r.Ok? ==> r.value == scores
    ensures r.Err? ==> r.error == NotFoundError("No scores found")
  {
    if scores == [] then Err(NotFoundError("No scores found")) else Ok(scores)
  }

  /** The position of the record with that id, if any. */
  function IndexOfScore(scores: seq<ScoreRecord>, id: nat): (r: Option<nat>)
    ensures r.Some? ==> r.value < |scores| && scores[r.value].id == id
    ensures r.Some? ==> forall j :: 0 <= j < r.value ==> scores[j].id != id
    ensures r.None? <==> forall j :: 0 <= j < |scores| ==> scores[j].id != id
    decreases |scores|
  {
    if scores == [] then None
    else if scores[0].id == id then Some(0)
    else match IndexOfScore(scores[1..], id)
      case None => None
      case Some(i) => Some(i + 1)
  }

  /** `getScoreById`: the record, or NotFound. */
  function GetScoreById(scores: seq<ScoreRecord>, id: nat): (r: Result<ScoreRecord>)
    ensures r.Ok? <==> exists j :: 0 <= j < |scores| && scores[j].id == id
    ensures r.Ok? ==> r.value in scores && r.value.id == id
    ensures r.Err? ==> r.error == NotFoundError("Score not found")
  {
    match IndexOfScore(scores, id)
    case None => Err(NotFoundError("Score not found"))
    case Some(i) => Ok(scores[i])
  }

  /** The fields an update request sets; absent fields keep their value. */
  datatype ScorePatch = ScorePatch(playerId: Option<Id>, gameId: Option<Id>, score: Option<int>)

  function ApplyScorePatch(s: ScoreRecord, p: ScorePatch): (s': ScoreRecord)
    ensures s'.id == s.id
    ensures s'.playerId == (if p.playerId.Some? then p.playerId.value else s.playerId)
    ensures s'.gameId == (if p.gameId.Some? then p.gameId.value else s.gameId)
    ensures s'.score == (if p.score.Some? then p.score.value else s.score)
  {
    ScoreRecord(s.id,
                if p.playerId.Some? then p.playerId.value else s.playerId,
                if p.gameId.Some? then p.gameId.value else s.gameId,
                if p.score.Some? then p.score.value else s.score)
  }

  /** `updateScore`: the record is patched and returned; NotFound when the id is absent. */
  method UpdateScore(db: Db, id: nat, patch: ScorePatch) returns (r: Result<ScoreRecord>)
    modifies db`scores
    ensures IndexOfScore(old(db.scores), id).None? ==>
      r == Err(NotFoundError("Score not found")) && db.scores == old(db.scores)
    ensures IndexOfScore(old(db.scores), id).Some? ==>
      var i := IndexOfScore(old(db.scores), id).value;
      && r == Ok(ApplyScorePatch(old(db.scores)[i], patch))
      && db.scores == old(db.scores)[i := r.value]
  {
    var i := IndexOfScore(db.scores, id);
    if i.None? {
      return Err(NotFoundError("Score not found"));
    }
    var updated := ApplyScorePatch(db.scores[i.value], patch);
    db.scores := db.scores[i.value := updated];
    r := Ok(updated);
  }

  /** `deleteScore`: the record is removed and returned; NotFound when the id is absent. */
  method DeleteScore(db: Db, id: nat) returns (r: Result<ScoreRecord>)
    modifies db`scores
    ensures IndexOfScore(old(db.scores), id).None? ==>
      r == Err(NotFoundError("Score not found")) && db.scores == old(db.scores)
    ensures IndexOfScore(old(db.scores), id).Some? ==>
      var i := IndexOfScore(old(db.scores), id).value;
      && r == Ok(old(db.scores)[i])
      && db.scores == old(db.scores)[..i] + old(db.scores)[i + 1..]
  {
    var i := IndexOfScore(db.scores, id);
    if i.None? {
      return Err(NotFoundError("Score not found"));
    }
    r := Ok(db.scores[i.value]);
    db.scores := db.scores[..i.value] + db.scores[i.value + 1..];
  }

  /** The score table after the first `rows`: each player's name maps to its latest score. */
  function NameTable(names: seq<string>, rows: seq<ScoreRecord>): map<string, int>
    requires |names| == |rows|
  {
    if rows == [] then map[]
    else
      var n := |rows| - 1;
      NameTable(names[..n], rows[..n])[names[n] := rows[n].score]
  }

  /**
   * In the score table every name comes from some row, and holds the score
   * of the last row with that name: later rows overwrite earlier ones.
   */
  lemma {:induction false} NameTableLatest(names: seq<string>, rows: seq<ScoreRecord>)
    requires |names| == |rows|
    ensures forall k :: k in NameTable(names, rows) <==> k in names
    ensures forall i :: 0 <= i < |rows| && (forall j :: i < j < |rows| ==> names[j] != names[i]) ==>
      NameTable(names, rows)[names[i]] == rows[i].score
  {
    if rows != [] {
      var n := |rows| - 1;
      NameTableLatest(names[..n], rows[..n]);
      assert names == names[..n] + [names[n]];
      forall i | 0 <= i < |rows| && (forall j :: i < j < |rows| ==> names[j] != names[i])
        ensures NameTable(names, rows)[names[i]] == rows[i].score
      {
        if i < n {
          assert names[..n][i] == names[i];
          assert forall j :: i < j < n ==> names[..n][j] != names[..n][i];
        }
      }
    }
  }

  /** The names of the records' players, or None when one of them does not resolve. */
  function NamesOf(users: seq<User>, rows: seq<ScoreRecord>): (r: Option<seq<string>>)
    ensures r.Some? <==> forall i :: 0 <= i < |rows| ==> FindUser(users, rows[i].playerId).Some?
    ensures r.Some? ==> |r.value| == |rows|
    ensures r.Some? ==> forall i :: 0 <= i < |rows| ==> r.value[i] == FindUser(users, rows[i].playerId).value.name
  {
    if rows == [] then Some([])
    else
      var n := |rows| - 1;
      match NamesOf(users, rows[..n])
      case None => None
      case Some(names) =>
        match FindUser(users, rows[n].playerId)
        case None => None
        case Some(u) => Some(names + [u.name])
  }

  /**
   * `getScoresByGame`: an id is required, the game must exist and have
   * scores; the result maps each player's name to the score of its last
   * record in the game.
   */
  method GetScoresByGame(db: Db, gameId: Id) returns (r: Result<map<string, int>>)
    ensures gameId == "" ==> r == Err(ValidationError("Game ID is required"))
    ensures gameId != "" && gameId !in db.games ==> r == Err(NotFoundError("Game not found"))
    ensures gameId != "" && gameId in db.games && ScoresOf(db.scores, gameId) == [] ==>
      r == Err(ValidationError("No scores registered"))
    ensures r.Ok? <==> gameId != "" && gameId in db.games && ScoresOf(db.scores, gameId) != []
                        && NamesOf(db.users, ScoresOf(db.scores, gameId)).Some?
    ensures r.Ok? ==>
      var rows := ScoresOf(db.scores, gameId);
      r.value == NameTable(NamesOf(db.users, rows).value, rows)
    ensures gameId != "" && gameId in db.games && ScoresOf(db.scores, gameId) != []
            && NamesOf(db.users, ScoresOf(db.scores, gameId)).None? ==>
      r == Err(TypeError())
  {
    if gameId == "" {
      return Err(ValidationError("Game ID is required"));
    }
    if gameId !in db.games {
      return Err(NotFoundError("Game not found"));
    }
    var rows := ScoresOf(db.scores, gameId);
    if rows == [] {
      return Err(ValidationError("No scores registered"));
    }
    var table: map<string, int> := map[];
    var i := 0;
    while i < |rows|
      invariant 0 <= i <= |rows|
      invariant NamesOf(db.users, rows[..i]).Some?
      invariant table == NameTable(NamesOf(db.users, rows[..i]).value, rows[..i])
    {
      var user := FindUser(db.users, rows[i].playerId);
      if user.None? {
        return Err(TypeError());
      }
      NameTableStep(db.users, rows, i);
      table := table[user.value.name := rows[i].score];
      i := i + 1;
    }
    assert rows[..i] == rows;
    r := Ok(table);
  }

  /** One more resolved row extends the names and overwrites the table at that row's name. */
  lemma NameTableStep(users: seq<User>, rows: seq<ScoreRecord>, i: nat)
    requires i < |rows| && NamesOf(users, rows[..i]).Some?
    requires FindUser(users, rows[i].playerId).Some?
    ensures NamesOf(users, rows[..i + 1]).Some?
    ensures NameTable(NamesOf(users, rows[..i + 1]).value, rows[..i + 1])
         == NameTable(NamesOf(users, rows[..i]).value, rows[..i])[FindUser(users, rows[i].playerId).value.name := rows[i].score]
  {
    var names := NamesOf(users, rows[..i]).value;
    assert rows[..i + 1] == rows[..i] + [rows[i]];
    assert rows[..i + 1][..i] == rows[..i];
    NameTableSnoc(names, rows[..i], FindUser(users, rows[i].playerId).value.name, rows[i]);
  }

  lemma NameTableSnoc(names: seq<string>, rows: seq<ScoreRecord>, name: string, row: ScoreRecord)
    requires |names| == |rows|
    ensures NameTable(names + [name], rows + [row]) == NameTable(names, rows)[name := row.score]
  {
    assert (names + [name])[..|names|] == names;
    assert (rows + [row])[..|rows|] == rows;
  }
}
