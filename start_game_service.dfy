/**
 * Starting a game: only its creator may start it, every readiness row of
 * the game must be ready and there must be one. The game is marked started,
 * the newest deck card is flipped onto the discard pile, and two cards are
 * dealt to every player with a readiness row.
 */
module StartGameService {
  import opened Wrappers
  import opened Errors
  import opened Store
  import PlayerGameStateService
  import GameService
  import CardService

  const CardsPerPlayer: nat := 2
  const NoDeckMessage: string := "No hay cartas en el mazo para iniciar el juego."

  /** `PlayerGameState.find({game})`: the game's readiness rows, in store order. */
  function GameRows(rows: seq<ReadyRow>, gameId: Id): (r: seq<ReadyRow>)
    ensures forall row :: row in r <==> row in rows && row.game == gameId
    ensures |r| <= |rows|
  {
    if rows == [] then []
    else
      assert rows == [rows[0]] + rows[1..];
      (if rows[0].game == gameId then [rows[0]] else []) + GameRows(rows[1..], gameId)
  }

  /** The users of the rows, in order: the players cards are dealt to. */
  function Users(rows: seq<ReadyRow>): (r: seq<Id>)
    ensures |r| == |rows|
    ensures forall i :: 0 <= i < |rows| ==> r[i] == rows[i].user
  {
    if rows == [] then [] else [rows[0].user] + Users(rows[1..])
  }

  predicate AllReady(rows: seq<ReadyRow>)
  {
    forall i :: 0 <= i < |rows| ==> rows[i].ready
  }

  /** With one row per (user, game) pair, no user is dealt to twice. */
  lemma {:induction false} PlayersDistinct(rows: seq<ReadyRow>, gameId: Id)
    requires PlayerGameStateService.OneRowPerPair(rows)
    ensures Distinct(Users(GameRows(rows, gameId)))
  {
    if rows != [] {
      var tail := rows[1..];
      assert PlayerGameStateService.OneRowPerPair(tail) by {
        forall i, j | 0 <= i < j < |tail|
          ensures !(tail[i].user == tail[j].user && tail[i].game == tail[j].game)
        {
          assert tail[i] == rows[i + 1] && tail[j] == rows[j + 1];
        }
      }
      PlayersDistinct(tail, gameId);
      var rest := Users(GameRows(tail, gameId));
      if rows[0].game == gameId {
        assert rows[0].user !in rest by {
          forall k | 0 <= k < |rest| ensures rest[k] != rows[0].user {
            var row := GameRows(tail, gameId)[k];
            assert row in tail;
            var j :| 0 <= j < |tail| && tail[j] == row;
            assert rows[j + 1] == row;
          }
        }
        var us := Users(GameRows(rows, gameId));
        assert us == [rows[0].user] + rest;
        forall i, j | 0 <= i < j < |us| ensures us[i] != us[j] {
          if i == 0 {
            assert us[j] == rest[j - 1];
          } else {
            assert us[i] == rest[i - 1] && us[j] == rest[j - 1];
          }
        }
      } else {
        assert GameRows(rows, gameId) == GameRows(tail, gameId);
      }
    }
  }

  /** The card flipped to start the game: the newest card of the deck. */
  function FirstCard(cards: seq<Card>, gameId: Id): (f: CardId)
    requires DeckOf(cards, gameId) != []
    ensures f < |cards| && Keeps(InDeckOf(gameId), cards[f])
  {
    var deck := DeckOf(cards, gameId);
    deck[|deck| - 1]
  }

  /** The store after the first card is flipped: only its `discarded` flag changes. */
  function Flip(cards: seq<Card>, gameId: Id): (r: seq<Card>)
    requires DeckOf(cards, gameId) != []
    ensures |r| == |cards|
  {
    var f := FirstCard(cards, gameId);
    cards[f := cards[f].(discarded := true)]
  }

  /** After the flip the deck is the old deck without its newest card, so that card is not dealt. */
  lemma FlipDeck(cards: seq<Card>, gameId: Id)
    requires DeckOf(cards, gameId) != []
    ensures var deck := DeckOf(cards, gameId);
      DeckOf(Flip(cards, gameId), gameId) == deck[..|deck| - 1]
  {
    var f := FirstCard(cards, gameId);
    SelectDropLast(cards, InDeckOf(gameId), cards[f].(discarded := true));
  }

  /**
   * With distinct players and a deck holding enough cards, every player's
   * hand grows by exactly two cards and nobody else's changes.
   */
  lemma OpeningHands(cards: seq<Card>, gameId: Id, players: seq<Id>, p: Id)
    requires DeckOf(cards, gameId) != [] && players != [] && Distinct(players)
    requires CardsPerPlayer * |players| <= |DeckOf(cards, gameId)| - 1
    ensures var flipped := Flip(cards, gameId);
      var rest := DeckOf(flipped, gameId);
      && |players| * CardsPerPlayer <= |rest| && CardService.ValidIds(rest, flipped)
      && HandSize(CardService.Deal(flipped, rest, players, |players| * CardsPerPlayer), p)
         == HandSize(cards, p) + (if p in players then CardsPerPlayer else 0)
  {
    var f := FirstCard(cards, gameId);
    var flipped := Flip(cards, gameId);
    FlipDeck(cards, gameId);
    var rest := DeckOf(flipped, gameId);
    SelectUpdateSame(cards, f, cards[f].(discarded := true), HeldBy(p));
    assert Distinct(rest);
    CardService.EachPlayerDealt(flipped, rest, players, CardsPerPlayer, p);
  }

  /** The outcome of `handleDeckAndDistributeCards` on the store's cards. */
  ghost predicate Opened(cards: seq<Card>, cards': seq<Card>, gameId: Id, players: seq<Id>, r: Result<Card>)
  {
    && (DeckOf(cards, gameId) == [] ==> r == Err(PlainError(NoDeckMessage)) && cards' == cards)
    && (DeckOf(cards, gameId) != [] ==>
          var flipped := Flip(cards, gameId);
          var rest := DeckOf(flipped, gameId);
          && (|rest| < |players| * CardsPerPlayer ==>
                r == Err(ConflictError("There are not enough cards in the deck")) && cards' == flipped)
          && (|rest| >= |players| * CardsPerPlayer ==>
                && r == Ok(cards[FirstCard(cards, gameId)])
                && CardService.ValidIds(rest, flipped)
                && cards' == CardService.Deal(flipped, rest, players, |players| * CardsPerPlayer)))
  }

  /**
   * `handleDeckAndDistributeCards`: the newest deck card is flipped and
   * returned as read before the flip; the rest of the deck is dealt.
   */
  method OpenDeck(db: Db, gameId: Id, players: seq<Id>) returns (r: Result<Card>)
    modifies db`cards
    ensures Opened(old(db.cards), db.cards, gameId, players, r)
    ensures r.Ok? && players != [] && Distinct(players) ==>
      forall p :: HandSize(db.cards, p) == HandSize(old(db.cards), p) + (if p in players then CardsPerPlayer else 0)
  {
    var deck := DeckOf(db.cards, gameId);
    if deck == [] {
      return Err(PlainError(NoDeckMessage));
    }
    var firstCard := deck[|deck| - 1];
    var card := db.cards[firstCard];
    ghost var before := db.cards;
    db.cards := db.cards[firstCard := card.(discarded := true)];
    FlipDeck(before, gameId);
    deck := DeckOf(db.cards, gameId);
    var dealt := CardService.DistributeCards(db, players, CardsPerPlayer, deck);
    if dealt.Err? {
      return Err(dealt.error);
    }
    if players != [] && Distinct(players) {
      forall p
        ensures HandSize(db.cards, p) == HandSize(before, p) + (if p in players then CardsPerPlayer else 0)
      {
        OpeningHands(before, gameId, players, p);
      }
    }
    r := Ok(card);
  }

  /**
   * The guards of `startGameService`, in order: the creator check, every
   * readiness row ready (vacuously so with no rows), and at least one row.
   * On success, the players to deal to: the users of the rows, in row order.
   */
  function CheckStart(games: map<Id, Game>, readiness: seq<ReadyRow>, gameId: Id, token: string, auth: Option<Id>)
    : (r: Result<seq<Id>>)
    ensures GameService.CheckCreator(games, gameId, token, auth, "start").Err? ==>
      r == Err(GameService.CheckCreator(games, gameId, token, auth, "start").error)
    ensures GameService.CheckCreator(games, gameId, token, auth, "start").Ok?
            && !AllReady(GameRows(readiness, gameId)) ==>
      r == Err(ValidationError("Not all players are ready"))
    ensures GameService.CheckCreator(games, gameId, token, auth, "start").Ok?
            && AllReady(GameRows(readiness, gameId)) && GameRows(readiness, gameId) == [] ==>
      r == Err(ValidationError("No hay jugadores en la partida. No se puede iniciar el juego."))
    ensures r.Ok? <==> GameService.CheckCreator(games, gameId, token, auth, "start").Ok?
                       && AllReady(GameRows(readiness, gameId)) && GameRows(readiness, gameId) != []
    ensures r.Ok? ==> gameId in games && r.value == Users(GameRows(readiness, gameId)) && r.value != []
  {
    var check := GameService.CheckCreator(games, gameId, token, auth, "start");
    if check.Err? then Err(check.error)
    else
      var rows := GameRows(readiness, gameId);
      if !AllReady(rows) then Err(ValidationError("Not all players are ready"))
      else if rows == [] then Err(ValidationError("No hay jugadores en la partida. No se puede iniciar el juego."))
      else Ok(Users(rows))
  }

  /**
   * `startGameService`. The status write happens before the deck is looked
   * at, so a missing deck or too small a deck leaves the game started.
   */
  method StartGame(db: Db, gameId: Id, token: string, auth: Option<Id>) returns (r: Result<Card>)
    modifies db`games, db`cards
    ensures CheckStart(old(db.games), db.readiness, gameId, token, auth).Err? ==>
      r == Err(CheckStart(old(db.games), db.readiness, gameId, token, auth).error) && unchanged(db)
    ensures CheckStart(old(db.games), db.readiness, gameId, token, auth).Ok? ==>
      var players := CheckStart(old(db.games), db.readiness, gameId, token, auth).value;
      && db.games == old(db.games)[gameId := old(db.games)[gameId].(status := Started)]
      && Opened(old(db.cards), db.cards, gameId, players, r)
      && (r.Ok? && PlayerGameStateService.OneRowPerPair(db.readiness) ==>
            forall p :: HandSize(db.cards, p) == HandSize(old(db.cards), p) + (if p in players then CardsPerPlayer else 0))
  {
    var check := CheckStart(db.games, db.readiness, gameId, token, auth);
    if check.Err? {
      return Err(check.error);
    }
    var players := check.value;
    db.games := db.games[gameId := db.games[gameId].(status := Started)];
    if PlayerGameStateService.OneRowPerPair(db.readiness) {
      PlayersDistinct(db.readiness, gameId);
    }
    r := OpenDeck(db, gameId, players);
  }
}
