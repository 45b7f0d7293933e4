/**
 * The card operations of a running game: dealing, playing a card, drawing,
 * declaring and challenging "UNO", and the read-only views of a hand and of
 * the top card.
 */
module CardService {
  import opened Wrappers
  import opened Errors
  import opened Store
  import GameService
  import ScoreService

  /** The colours and values a generated card is drawn from. */
  const Colors: set<string> := {"red", "yellow", "green", "blue"}
  const Values: set<string> := {"0", "1", "2", "3", "4", "5", "6", "7", "8", "9",
                                "skip", "reverse", "drawTwo", "wild", "wildDrawFour"}

  // ---------------------------------------------------------------- dealing

  /** Every id of the deck names a card of the store. */
  predicate ValidIds(deck: seq<CardId>, cards: seq<Card>)
  {
    forall i :: 0 <= i < |deck| ==> deck[i] < |cards|
  }

  /** The card `id` handed to player `p`. */
  function Assign(cards: seq<Card>, id: CardId, p: Id): (r: seq<Card>)
    requires id < |cards|
    ensures |r| == |cards| && r[id].playerId == Some(p)
  {
    cards[id := cards[id].(playerId := Some(p))]
  }

  /**
   * The store after the first `m` cards popped off the end of `deck` went
   * round the players in seating order: the `i`-th popped card to seat
   * `i % |players|`.
   */
  function Deal(cards: seq<Card>, deck: seq<CardId>, players: seq<Id>, m: nat): (r: seq<Card>)
    requires m <= |deck| && ValidIds(deck, cards)
    ensures |r| == |cards|
  {
    if m == 0 || players == [] then cards
    else Assign(Deal(cards, deck, players, m - 1), deck[|deck| - m], players[(m - 1) % |players|])
  }

  /**
   * `distributeCards`: refuses a deck smaller than `players × cardsPerPlayer`;
   * otherwise deals exactly that many cards from the end of the deck.
   */
  method DistributeCards(db: Db, players: seq<Id>, cardsPerPlayer: nat, deck: seq<CardId>) returns (r: Result<()>)
    requires ValidIds(deck, db.cards)
    modifies db`cards
    ensures |deck| < |players| * cardsPerPlayer ==>
      r == Err(ConflictError("There are not enough cards in the deck")) && db.cards == old(db.cards)
    ensures |deck| >= |players| * cardsPerPlayer ==>
      r == Ok(()) && db.cards == Deal(old(db.cards), deck, players, |players| * cardsPerPlayer)
  {
    var total := |players| * cardsPerPlayer;
    if |deck| < total {
      return Err(ConflictError("There are not enough cards in the deck"));
    }
    var pile := deck;
    var playerIndex := 0;
    var dealt := 0;
    while dealt < total
      invariant 0 <= dealt <= total <= |deck|
      invariant pile == deck[..|deck| - dealt]
      invariant players != [] ==> playerIndex == dealt % |players|
      invariant players == [] ==> total == 0
      invariant db.cards == Deal(old(db.cards), deck, players, dealt)
    {
      var card := pile[|pile| - 1];
      pile := pile[..|pile| - 1];
      db.cards := db.cards[card := db.cards[card].(playerId := Some(players[playerIndex]))];
      GameService.ModStep(dealt, |players|);
      playerIndex := (playerIndex + 1) % |players|;
      dealt := dealt + 1;
    }
    r := Ok(());
  }

  /** How many of the first `m` deals go to player `p`. */
  function Occ(players: seq<Id>, m: nat, p: Id): nat
    requires players != []
  {
    if m == 0 then 0
    else Occ(players, m - 1, p) + (if players[(m - 1) % |players|] == p then 1 else 0)
  }

  /** Cards outside the dealt part of the deck keep their owner; a distinct deck's dealt cards get theirs. */
  lemma {:induction false} DealOwners(cards: seq<Card>, deck: seq<CardId>, players: seq<Id>, m: nat)
    requires m <= |deck| && ValidIds(deck, cards) && Distinct(deck) && players != []
    ensures forall j :: 0 <= j < |cards| && j !in deck[|deck| - m..] ==> Deal(cards, deck, players, m)[j] == cards[j]
    ensures forall i :: 0 <= i < m ==>
      Deal(cards, deck, players, m)[deck[|deck| - 1 - i]]
      == cards[deck[|deck| - 1 - i]].(playerId := Some(players[i % |players|]))
  {
    if m > 0 {
      DealOwners(cards, deck, players, m - 1);
      var d := |deck| - m;
      assert deck[d..] == [deck[d]] + deck[d + 1..];
      forall j | 0 <= j < |cards| && j !in deck[d..]
        ensures Deal(cards, deck, players, m)[j] == cards[j]
      {
        assert j !in deck[d + 1..];
      }
    }
  }

  /** With a distinct deck of unowned cards, each player's hand grows by its share of the deals. */
  lemma {:induction false} DealHands(cards: seq<Card>, deck: seq<CardId>, players: seq<Id>, m: nat, p: Id)
    requires m <= |deck| && ValidIds(deck, cards) && Distinct(deck) && players != []
    requires forall i :: 0 <= i < |deck| ==> cards[deck[i]].playerId.None?
    ensures HandSize(Deal(cards, deck, players, m), p) == HandSize(cards, p) + Occ(players, m, p)
  {
    if m > 0 {
      DealHands(cards, deck, players, m - 1, p);
      var prev := Deal(cards, deck, players, m - 1);
      var id := deck[|deck| - m];
      DealOwners(cards, deck, players, m - 1);
      assert id !in deck[|deck| - (m - 1)..] by {
        forall k | |deck| - (m - 1) <= k < |deck| ensures deck[k] != id { }
      }
      assert prev[id] == cards[id];
      CountUpdate(prev, id, prev[id].(playerId := Some(players[(m - 1) % |players|])), HeldBy(p));
    }
  }

  /** Within one round, a player in a distinct seating is dealt to once if seated among the first `j`. */
  lemma {:induction false} OccFirstRound(players: seq<Id>, j: nat, p: Id)
    requires players != [] && Distinct(players) && j <= |players|
    ensures Occ(players, j, p) == if p in players[..j] then 1 else 0
  {
    if j > 0 {
      OccFirstRound(players, j - 1, p);
      GameService.DivModUnique(j - 1, |players|, 0, j - 1);
      assert players[..j] == players[..j - 1] + [players[j - 1]];
      if players[j - 1] == p {
        assert p !in players[..j - 1] by {
          forall k | 0 <= k < j - 1 ensures players[k] != p { }
        }
      }
    }
  }

  /** A round that starts at a multiple of the player count deals like the first round. */
  lemma {:induction false} OccLaterRound(players: seq<Id>, k: nat, j: nat, p: Id)
    requires players != [] && j <= |players|
    ensures Occ(players, |players| * k + j, p) == Occ(players, |players| * k, p) + Occ(players, j, p)
  {
    if j > 0 {
      OccLaterRound(players, k, j - 1, p);
      var n := |players|;
      GameService.DivModUnique(n * k + j - 1, n, k, j - 1);
      GameService.DivModUnique(j - 1, n, 0, j - 1);
    }
  }

  /** In `k` full rounds over a distinct seating every seated player is dealt to exactly `k` times. */
  lemma {:induction false} OccRounds(players: seq<Id>, k: nat, p: Id)
    requires players != [] && Distinct(players)
    ensures Occ(players, |players| * k, p) == if p in players then k else 0
  {
    var n := |players|;
    if k > 0 {
      OccRounds(players, k - 1, p);
      OccLaterRound(players, k - 1, n, p);
      OccFirstRound(players, n, p);
      assert players[..n] == players;
      assert n * (k - 1) + n == n * k;
    }
  }

  /**
   * Dealing `cardsPerPlayer` rounds of a distinct deck of unowned cards to a
   * distinct seating gives every seated player exactly `cardsPerPlayer` more
   * cards and nobody else any.
   */
  lemma EachPlayerDealt(cards: seq<Card>, deck: seq<CardId>, players: seq<Id>, cardsPerPlayer: nat, p: Id)
    requires |players| * cardsPerPlayer <= |deck| && ValidIds(deck, cards) && Distinct(deck)
    requires forall i :: 0 <= i < |deck| ==> cards[deck[i]].playerId.None?
    requires players != [] && Distinct(players)
    ensures HandSize(Deal(cards, deck, players, |players| * cardsPerPlayer), p)
         == HandSize(cards, p) + (if p in players then cardsPerPlayer else 0)
  {
    DealHands(cards, deck, players, |players| * cardsPerPlayer, p);
    OccRounds(players, cardsPerPlayer, p);
  }

  // ---------------------------------------------------------------- guards

  /**
   * The turn guards of `playCard` and `drawCard`: the game exists, has not
   * finished, and its current seat is the player's. `notFound` is the
   * caller's own NotFound message.
   */
  function CheckTurn(games: map<Id, Game>, gameId: Id, playerId: Id, notFound: string): (r: Result<Game>)
    ensures r.Ok? <==> gameId in games && games[gameId].status != Finished
                        && SeatHolder(games[gameId]) == Some(playerId)
    ensures r.Ok? ==> r.value == games[gameId]
    ensures gameId !in games ==> r == Err(NotFoundError(notFound))
    ensures gameId in games && games[gameId].status == Finished ==>
      r == Err(ConflictError("The game has already ended"))
    ensures gameId in games && games[gameId].status != Finished && SeatHolder(games[gameId]).None? ==>
      r == Err(TypeError())
    ensures gameId in games && games[gameId].status != Finished && SeatHolder(games[gameId]).Some?
            && SeatHolder(games[gameId]).value != playerId ==>
      r == Err(MethodNotAllowedError("It's not your turn."))
  {
    if gameId !in games then Err(NotFoundError(notFound))
    else
      var g := games[gameId];
      if g.status == Finished then Err(ConflictError("The game has already ended"))
      else match SeatHolder(g)
        case None => Err(TypeError())
        case Some(q) => if q != playerId then Err(MethodNotAllowedError("It's not your turn.")) else Ok(g)
  }

  /** A card may go on the top card when colour or value agree, or when it is wild. */
  predicate Matches(c: Card, top: Card)
  {
    c.color == top.color || c.value == top.value || c.color == "wild"
  }

  /**
   * The card guards of `playCard`: the card exists, belongs to the player,
   * and matches the newest card of the game.
   */
  function CheckPlay(cards: seq<Card>, gameId: Id, playerId: Id, cardId: CardId): (r: Result<Card>)
    ensures r.Ok? <==> cardId < |cards| && cards[cardId].playerId == Some(playerId)
                        && TopCard(cards, gameId).Some? && Matches(cards[cardId], cards[TopCard(cards, gameId).value])
    ensures r.Ok? ==> r.value == cards[cardId]
    ensures cardId >= |cards| ==> r == Err(NotFoundError("The card does not exist."))
    ensures cardId < |cards| && cards[cardId].playerId.None? ==> r == Err(TypeError())
    ensures cardId < |cards| && cards[cardId].playerId.Some? && cards[cardId].playerId != Some(playerId) ==>
      r == Err(UnauthorizedError("This card does not belong to the player."))
    ensures cardId < |cards| && cards[cardId].playerId == Some(playerId) && TopCard(cards, gameId).None? ==>
      r == Err(TypeError())
    ensures cardId < |cards| && cards[cardId].playerId == Some(playerId) && TopCard(cards, gameId).Some?
            && !Matches(cards[cardId], cards[TopCard(cards, gameId).value]) ==>
      r == Err(ValidationError("Invalid card. It must match in color or number."))
  {
    if cardId >= |cards| then Err(NotFoundError("The card does not exist."))
    else
      var c := cards[cardId];
      if c.playerId.None? then Err(TypeError())
      else if c.playerId.value != playerId then Err(UnauthorizedError("This card does not belong to the player."))
      else match TopCard(cards, gameId)
        case None => Err(TypeError())
        case Some(top) =>
          if !Matches(c, cards[top]) then Err(ValidationError("Invalid card. It must match in color or number."))
          else Ok(c)
  }

  // ---------------------------------------------------------------- playing

  datatype PlayOutcome =
    | Won(message: string, scores: map<Id, int>)
    | Played(message: string, nextPlayer: Id)

  /** The card `id` taken out of its hand onto the discard pile. */
  function Discard(cards: seq<Card>, id: CardId): (r: seq<Card>)
    requires id < |cards|
    ensures |r| == |cards| && r[id].playerId.None? && r[id].discarded
  {
    cards[id := cards[id].(playerId := None, discarded := true)]
  }

  /**
   * `playCard`: after the turn and card guards the play is logged and the
   * card discarded, so the player's hand shrinks by one. An emptied hand
   * wins the game (final scores are written and the game finishes);
   * otherwise "reverse" reverses the seating and the turn moves on, two
   * seats for "skip".
   */
  method PlayCard(db: Db, playerId: Id, gameId: Id, cardId: CardId) returns (r: Result<PlayOutcome>)
    modifies db`cards, db`games, db`history, db`scores, db`nextScoreId
    ensures CheckTurn(old(db.games), gameId, playerId, "Game not Found.").Err? ==>
      r == Err(CheckTurn(old(db.games), gameId, playerId, "Game not Found.").error)
      && unchanged(db)
    ensures CheckTurn(old(db.games), gameId, playerId, "Game not Found.").Ok?
            && CheckPlay(old(db.cards), gameId, playerId, cardId).Err? ==>
      r == Err(CheckPlay(old(db.cards), gameId, playerId, cardId).error)
      && unchanged(db)
    ensures CheckTurn(old(db.games), gameId, playerId, "Game not Found.").Ok?
            && CheckPlay(old(db.cards), gameId, playerId, cardId).Ok? ==>
      var c := old(db.cards)[cardId];
      && db.history == old(db.history) + [HistoryEntry(gameId, playerId, "Jugó " + c.color + " " + c.value)]
      && db.cards == Discard(old(db.cards), cardId)
      && HandSize(db.cards, playerId) == HandSize(old(db.cards), playerId) - 1
      && (HandSize(db.cards, playerId) == 0 ==> WinOutcome(old(db.games), db.games, old(db.scores), db.scores, gameId, playerId, r))
      && (HandSize(db.cards, playerId) > 0 ==> PassOutcome(old(db.games), db.games, gameId, c.value, r)
                                               && db.scores == old(db.scores))
  {
    var turn := CheckTurn(db.games, gameId, playerId, "Game not Found.");
    if turn.Err? {
      return Err(turn.error);
    }
    var play := CheckPlay(db.cards, gameId, playerId, cardId);
    if play.Err? {
      return Err(play.error);
    }
    var card := play.value;
    db.history := db.history + [HistoryEntry(gameId, playerId, "Jugó " + card.color + " " + card.value)];
    CountUpdate(db.cards, cardId, card.(playerId := None, discarded := true), HeldBy(playerId));
    db.cards := Discard(db.cards, cardId);
    if HandSize(db.cards, playerId) == 0 {
      r := FinishGame(db, gameId, playerId);
    } else {
      r := PassTurn(db, gameId, card.value);
    }
  }

  /**
   * The winning branch of `playCard`: when the standings can be computed the
   * game is finished with the player as winner and the standings returned;
   * otherwise the error surfaces and neither the game nor the scores change.
   */
  ghost predicate WinOutcome(games: map<Id, Game>, games': map<Id, Game>, scores: seq<ScoreRecord>,
                             scores': seq<ScoreRecord>, gameId: Id, winner: Id, r: Result<PlayOutcome>)
    requires gameId in games
  {
    var g := games[gameId];
    && (r.Ok? <==> winner != "" && g.players != [])
    && (r.Err? ==> games' == games && scores' == scores)
    && (r.Ok? ==>
          var standings := ScoreService.Standings(g.players, winner);
          && r.value == Won("¡" + winner + " has won the game!", standings)
          && games' == games[gameId := g.(status := Finished, winner := Some(winner))]
          && ScoreService.WritesStandings(scores, scores', gameId, standings))
  }

  method FinishGame(db: Db, gameId: Id, winner: Id) returns (r: Result<PlayOutcome>)
    requires gameId in db.games
    modifies db`games, db`scores, db`nextScoreId
    ensures WinOutcome(old(db.games), db.games, old(db.scores), db.scores, gameId, winner, r)
  {
    var scores := ScoreService.CalculateFinalScores(db, gameId, winner);
    if scores.Err? {
      return Err(scores.error);
    }
    var game := db.games[gameId];
    db.games := db.games[gameId := game.(status := Finished, winner := Some(winner))];
    r := Ok(Won("¡" + winner + " has won the game!", scores.value));
  }

  /**
   * The seating after a card of value `value`: reversed for "reverse", and
   * with the turn index moved on from where it was, two seats for "skip".
   */
  function AfterPlay(g: Game, value: string): (g': Game)
    requires g.players != []
    ensures |g'.players| == |g.players| && g'.turnIndex.Some?
    ensures g' == g.(players := g'.players, turnIndex := g'.turnIndex)
  {
    var seated := if value == "reverse" then GameService.Reverse(g.players) else g.players;
    g.(players := seated, turnIndex := Some(GameService.NextTurnIndex(g.turnIndex, |seated|, value == "skip")))
  }

  /** The non-winning branch of `playCard`: the turn passes and the new seat holder is named. */
  ghost predicate PassOutcome(games: map<Id, Game>, games': map<Id, Game>, gameId: Id, value: string, r: Result<PlayOutcome>)
    requires gameId in games && SeatHolder(games[gameId]).Some?
  {
    var g' := AfterPlay(games[gameId], value);
    && games' == games[gameId := g']
    && SeatHolder(g').Some?
    && r == Ok(Played(if value == "reverse" then "A Reverse card was played. The player order has been reversed."
                      else "Card played successfully.",
                      SeatHolder(g').value))
  }

  method PassTurn(db: Db, gameId: Id, value: string) returns (r: Result<PlayOutcome>)
    requires gameId in db.games && SeatHolder(db.games[gameId]).Some?
    modifies db`games
    ensures PassOutcome(old(db.games), db.games, gameId, value, r)
  {
    var game := db.games[gameId];
    var reverse := value == "reverse";
    if reverse {
      db.games := db.games[gameId := game.(players := GameService.Reverse(game.players))];
    }
    var next := GameService.GetNextPlayer(db, gameId, value == "skip");
    if next.Err? {
      assert false;
    }
    var message := if reverse then "A Reverse card was played. The player order has been reversed."
                   else "Card played successfully.";
    r := Ok(Played(message, next.value));
  }

  /** From a valid seat `t`, "skip" moves the turn two seats on and every value but "reverse" one seat. */
  lemma TurnAdvance(g: Game, value: string)
    requires SeatHolder(g).Some? && value != "reverse"
    ensures AfterPlay(g, value).players == g.players
    ensures AfterPlay(g, value).turnIndex
         == Some((g.turnIndex.value + (if value == "skip" then 2 else 1)) % |g.players|)
  {
    GameService.NextTurnAdvances(g.turnIndex.value, |g.players|, value == "skip");
  }

  /**
   * After "reverse" from seat `t` the seating is reversed and the turn index
   * moves one seat on in the new order, so the turn goes to the player who
   * sat at `n - 1 - (t + 1) % n` before the reversal.
   */
  lemma ReverseHandsTurnTo(g: Game)
    requires SeatHolder(g).Some?
    ensures var n := |g.players|;
      && AfterPlay(g, "reverse").players == GameService.Reverse(g.players)
      && SeatHolder(AfterPlay(g, "reverse")) == Some(g.players[n - 1 - (g.turnIndex.value + 1) % n])
  {
    GameService.NextTurnAdvances(g.turnIndex.value, |g.players|, false);
  }

  // ---------------------------------------------------------------- drawing

  datatype DrawOutcome = DrawOutcome(message: string, drawnCard: Card, nextPlayer: Id)

  /**
   * `drawCard`: after the turn guards, a deck card of the game goes to the
   * player's hand (NotFound when the deck is empty), the draw is logged, and
   * the turn moves on one seat. The returned card is the one read before it
   * was assigned.
   */
  method DrawCard(db: Db, playerId: Id, gameId: Id) returns (r: Result<DrawOutcome>)
    modifies db`cards, db`games, db`history
    ensures CheckTurn(old(db.games), gameId, playerId, "Game not found").Err? ==>
      r == Err(CheckTurn(old(db.games), gameId, playerId, "Game not found").error) && unchanged(db)
    ensures CheckTurn(old(db.games), gameId, playerId, "Game not found").Ok?
            && DrawFromDeck(old(db.cards), gameId).None? ==>
      r == Err(NotFoundError("There are no cards in the deck.")) && unchanged(db)
    ensures CheckTurn(old(db.games), gameId, playerId, "Game not found").Ok?
            && DrawFromDeck(old(db.cards), gameId).Some? ==>
      var d := DrawFromDeck(old(db.cards), gameId).value;
      var g' := AfterPlay(old(db.games)[gameId], "");
      && db.history == old(db.history) + [HistoryEntry(gameId, playerId, "Drew a card")]
      && db.cards == Assign(old(db.cards), d, playerId)
      && HandSize(db.cards, playerId) == HandSize(old(db.cards), playerId) + 1
      && Count(db.cards, InDeckOf(gameId)) == Count(old(db.cards), InDeckOf(gameId)) - 1
      && db.games == old(db.games)[gameId := g']
      && SeatHolder(g').Some?
      && r == Ok(DrawOutcome("Card drawn. Next player's turn.", old(db.cards)[d], SeatHolder(g').value))
  {
    var turn := CheckTurn(db.games, gameId, playerId, "Game not found");
    if turn.Err? {
      return Err(turn.error);
    }
    var deckCard := DrawFromDeck(db.cards, gameId);
    if deckCard.None? {
      return Err(NotFoundError("There are no cards in the deck."));
    }
    var d := deckCard.value;
    var drawn := db.cards[d];
    db.history := db.history + [HistoryEntry(gameId, playerId, "Drew a card")];
    CountUpdate(db.cards, d, drawn.(playerId := Some(playerId)), HeldBy(playerId));
    CountUpdate(db.cards, d, drawn.(playerId := Some(playerId)), InDeckOf(gameId));
    db.cards := Assign(db.cards, d, playerId);
    var next := GameService.GetNextPlayer(db, gameId, false);
    if next.Err? {
      assert false;
    }
    r := Ok(DrawOutcome("Card drawn. Next player's turn.", drawn, next.value));
  }

  // ---------------------------------------------------------------- UNO

  /**
   * `declareUno`: only a player holding exactly one card (counted over all
   * games) may declare; the declaration is logged and recorded in the
   * game's UNO status, which a missing game simply does not receive.
   */
  method DeclareUno(db: Db, playerId: Id, gameId: Id) returns (r: Result<string>)
    modifies db`games, db`history
    ensures HandSize(db.cards, playerId) != 1 ==>
      r == Err(ValidationError("You can only say 'UNO' when you have exactly one card."))
      && db.games == old(db.games) && db.history == old(db.history)
    ensures HandSize(db.cards, playerId) == 1 ==>
      && r == Ok("UNO declared successfully!")
      && db.history == old(db.history) + [HistoryEntry(gameId, playerId, "Declared UNO")]
      && (gameId !in old(db.games) ==> db.games == old(db.games))
      && (gameId in old(db.games) ==>
            var g := old(db.games)[gameId];
            db.games == old(db.games)[gameId := g.(unoStatus := g.unoStatus[playerId := true])])
  {
    if HandSize(db.cards, playerId) != 1 {
      return Err(ValidationError("You can only say 'UNO' when you have exactly one card."));
    }
    db.history := db.history + [HistoryEntry(gameId, playerId, "Declared UNO")];
    if gameId in db.games {
      var game := db.games[gameId];
      db.games := db.games[gameId := game.(unoStatus := game.unoStatus[playerId := true])];
    }
    r := Ok("UNO declared successfully!");
  }

  /** Whether the game records that the player declared UNO; an absent entry reads as false. */
  predicate Declared(g: Game, playerId: Id)
  {
    playerId in g.unoStatus && g.unoStatus[playerId]
  }

  /** The guards of `challengeUno`: the game exists, the challenged player holds one card and did not declare. */
  function CheckChallenge(games: map<Id, Game>, cards: seq<Card>, challengedId: Id, gameId: Id): (r: Result<Game>)
    ensures r.Ok? <==> gameId in games && HandSize(cards, challengedId) == 1 && !Declared(games[gameId], challengedId)
    ensures r.Ok? ==> r.value == games[gameId]
    ensures gameId !in games ==> r == Err(NotFoundError("Game not found."))
    ensures gameId in games && HandSize(cards, challengedId) != 1 ==>
      r == Err(ConflictError("You cannot challenge this player because they do not have exactly one card."))
    ensures gameId in games && HandSize(cards, challengedId) == 1 && Declared(games[gameId], challengedId) ==>
      r == Err(ConflictError("The player did declare 'UNO', you cannot challenge them."))
  {
    if gameId !in games then Err(NotFoundError("Game not found."))
    else if HandSize(cards, challengedId) != 1 then
      Err(ConflictError("You cannot challenge this player because they do not have exactly one card."))
    else if Declared(games[gameId], challengedId) then
      Err(ConflictError("The player did declare 'UNO', you cannot challenge them."))
    else Ok(games[gameId])
  }

  const ChallengeSucceeded: string := "Successful challenge! The player forgot to say 'UNO' and has drawn 2 cards."

  /** A card `generateRandomCard` may produce for the player. */
  predicate IsGenerated(c: Card, gameId: Id, playerId: Id)
  {
    c.color in Colors && c.value in Values && c.gameId == gameId && c.playerId == Some(playerId) && !c.discarded
  }

  /** A new card as `generateRandomCard` makes it: colour and value are chosen at random. */
  method GenerateRandomCard(gameId: Id, playerId: Id) returns (c: Card)
    ensures IsGenerated(c, gameId, playerId)
  {
    var color :| color in Colors;
    var value :| value in Values;
    c := Card(color, value, gameId, Some(playerId), false);
  }

  /**
   * `challengeUno` as written: both penalty draws are issued at once, so
   * both read the same deck and return the same card. With a non-empty deck
   * the challenged player therefore gains ONE card; with an empty deck two
   * generated cards are created for them.
   */
  method ChallengeUno(db: Db, challengerId: Id, challengedId: Id, gameId: Id) returns (r: Result<string>)
    modifies db`cards
    ensures CheckChallenge(old(db.games), old(db.cards), challengedId, gameId).Err? ==>
      r == Err(CheckChallenge(old(db.games), old(db.cards), challengedId, gameId).error)
      && db.cards == old(db.cards)
    ensures CheckChallenge(old(db.games), old(db.cards), challengedId, gameId).Ok? ==>
      && r == Ok(ChallengeSucceeded)
      && (DrawFromDeck(old(db.cards), gameId).Some? ==>
            && db.cards == Assign(old(db.cards), DrawFromDeck(old(db.cards), gameId).value, challengedId)
            && HandSize(db.cards, challengedId) == HandSize(old(db.cards), challengedId) + 1)
      && (DrawFromDeck(old(db.cards), gameId).None? ==>
            && |db.cards| == |old(db.cards)| + 2
            && db.cards[..|old(db.cards)|] == old(db.cards)
            && IsGenerated(db.cards[|old(db.cards)|], gameId, challengedId)
            && IsGenerated(db.cards[|old(db.cards)| + 1], gameId, challengedId)
            && HandSize(db.cards, challengedId) == HandSize(old(db.cards), challengedId) + 2)
  {
    var check := CheckChallenge(db.games, db.cards, challengedId, gameId);
    if check.Err? {
      return Err(check.error);
    }
    var first := DrawFromDeck(db.cards, gameId);
    var second := DrawFromDeck(db.cards, gameId);
    if first.Some? {
      // both draws returned the same card: no card is generated, and the two
      // ownership writes coincide
      ConcurrentDrawsCoincide(db.cards, gameId, challengedId);
      db.cards := Assign(db.cards, first.value, challengedId);
      db.cards := Assign(db.cards, second.value, challengedId);
    } else {
      var g1 := GenerateRandomCard(gameId, challengedId);
      var g2 := GenerateRandomCard(gameId, challengedId);
      TwoNewCards(db.cards, g1, g2, challengedId);
      db.cards := db.cards + [g1] + [g2];
    }
    r := Ok(ChallengeSucceeded);
  }

  /**
   * `challengeUno` with the two penalty draws taken one after the other:
   * each draw takes a deck card if there is one, and every missing card is
   * generated, so the challenged player always gains exactly two cards.
   */
  method ChallengeUnoSequential(db: Db, challengerId: Id, challengedId: Id, gameId: Id) returns (r: Result<string>)
    modifies db`cards
    ensures CheckChallenge(old(db.games), old(db.cards), challengedId, gameId).Err? ==>
      r == Err(CheckChallenge(old(db.games), old(db.cards), challengedId, gameId).error)
      && db.cards == old(db.cards)
    ensures CheckChallenge(old(db.games), old(db.cards), challengedId, gameId).Ok? ==>
      && r == Ok(ChallengeSucceeded)
      && HandSize(db.cards, challengedId) == HandSize(old(db.cards), challengedId) + 2
      && Penalized(old(db.cards), db.cards, gameId, challengedId)
  {
    var check := CheckChallenge(db.games, db.cards, challengedId, gameId);
    if check.Err? {
      return Err(check.error);
    }
    ghost var before := db.cards;
    PenaltyDraw(db, challengedId, gameId);
    ghost var middle := db.cards;
    PenaltyDraw(db, challengedId, gameId);
    PenalizedTwice(before, middle, db.cards, gameId, challengedId);
    r := Ok(ChallengeSucceeded);
  }

  /**
   * `after` differs from `before` only by deck cards of the game handed to
   * the player and by new cards generated for the player.
   */
  ghost predicate Penalized(before: seq<Card>, after: seq<Card>, gameId: Id, playerId: Id)
  {
    && |after| >= |before|
    && (forall j :: 0 <= j < |before| ==>
          after[j] == before[j]
          || (Keeps(InDeckOf(gameId), before[j]) && after[j] == before[j].(playerId := Some(playerId))))
    && (forall j :: |before| <= j < |after| ==> IsGenerated(after[j], gameId, playerId))
  }

  lemma PenalizedTwice(a: seq<Card>, b: seq<Card>, c: seq<Card>, gameId: Id, playerId: Id)
    requires Penalized(a, b, gameId, playerId) && Penalized(b, c, gameId, playerId)
    ensures Penalized(a, c, gameId, playerId)
  {
    forall j | 0 <= j < |a|
      ensures c[j] == a[j] || (Keeps(InDeckOf(gameId), a[j]) && c[j] == a[j].(playerId := Some(playerId)))
    {
      if b[j] != a[j] {
        assert !Keeps(InDeckOf(gameId), b[j]);
      }
    }
  }

  /** One penalty card: the next deck card of the game, or a generated one when the deck is empty. */
  method PenaltyDraw(db: Db, playerId: Id, gameId: Id)
    modifies db`cards
    ensures HandSize(db.cards, playerId) == HandSize(old(db.cards), playerId) + 1
    ensures Penalized(old(db.cards), db.cards, gameId, playerId)
    ensures DrawFromDeck(old(db.cards), gameId).Some? ==>
      db.cards == Assign(old(db.cards), DrawFromDeck(old(db.cards), gameId).value, playerId)
    ensures DrawFromDeck(old(db.cards), gameId).None? ==>
      |db.cards| == |old(db.cards)| + 1 && db.cards[..|old(db.cards)|] == old(db.cards)
  {
    var drawn := DrawFromDeck(db.cards, gameId);
    if drawn.Some? {
      var c := drawn.value;
      CountUpdate(db.cards, c, db.cards[c].(playerId := Some(playerId)), HeldBy(playerId));
      PenalizedByDeckCard(db.cards, c, gameId, playerId);
      db.cards := Assign(db.cards, c, playerId);
    } else {
      var g := GenerateRandomCard(gameId, playerId);
      SelectAppend(db.cards, g, HeldBy(playerId));
      PenalizedByNewCard(db.cards, g, gameId, playerId);
      db.cards := db.cards + [g];
    }
  }

  lemma PenalizedByDeckCard(cards: seq<Card>, c: CardId, gameId: Id, playerId: Id)
    requires c < |cards| && Keeps(InDeckOf(gameId), cards[c])
    ensures Penalized(cards, Assign(cards, c, playerId), gameId, playerId)
  {
  }

  lemma PenalizedByNewCard(cards: seq<Card>, g: Card, gameId: Id, playerId: Id)
    requires IsGenerated(g, gameId, playerId)
    ensures Penalized(cards, cards + [g], gameId, playerId)
    ensures (cards + [g])[..|cards|] == cards
  {
  }

  /** The two draws of the written challenge return the same card, so the player gains one card. */
  lemma ConcurrentDrawsCoincide(cards: seq<Card>, gameId: Id, playerId: Id)
    requires DrawFromDeck(cards, gameId).Some?
    ensures var c := DrawFromDeck(cards, gameId).value;
      && Assign(Assign(cards, c, playerId), c, playerId) == Assign(cards, c, playerId)
      && HandSize(Assign(cards, c, playerId), playerId) == HandSize(cards, playerId) + 1
  {
    var c := DrawFromDeck(cards, gameId).value;
    CountUpdate(cards, c, cards[c].(playerId := Some(playerId)), HeldBy(playerId));
  }

  /** Two generated cards add two cards to the player's hand and leave the older cards alone. */
  lemma TwoNewCards(cards: seq<Card>, g1: Card, g2: Card, playerId: Id)
    requires g1.playerId == Some(playerId) && g2.playerId == Some(playerId)
    ensures HandSize(cards + [g1] + [g2], playerId) == HandSize(cards, playerId) + 2
    ensures (cards + [g1] + [g2])[..|cards|] == cards
  {
    SelectAppend(cards, g1, HeldBy(playerId));
    SelectAppend(cards + [g1], g2, HeldBy(playerId));
  }

  // ---------------------------------------------------------------- views

  /** `getPlayerHand`: the player's cards (in any game), each shown as "colour value". */
  function PlayerHand(cards: seq<Card>, playerId: Id): (r: seq<string>)
    ensures |r| == HandSize(cards, playerId)
    ensures forall i :: 0 <= i < |r| ==>
      var c := cards[PlayerCards(cards, playerId)[i]];
      c.playerId == Some(playerId) && r[i] == c.color + " " + c.value
  {
    var held := PlayerCards(cards, playerId);
    seq(|held|, i requires 0 <= i < |held| => cards[held[i]].color + " " + cards[held[i]].value)
  }

  /** `getTopDeckCard`: the colour and value of the newest card of the game, NotFound when it has none. */
  function TopDeckCard(cards: seq<Card>, gameId: Id): (r: Result<(string, string)>)
    ensures r.Err? <==> forall j :: 0 <= j < |cards| ==> cards[j].gameId != gameId
    ensures r.Err? ==> r.error == NotFoundError("No hay cartas en el mazo.")
    ensures r.Ok? ==> exists j :: 0 <= j < |cards| && cards[j].gameId == gameId
                                  && r.value == (cards[j].color, cards[j].value)
                                  && forall k :: j < k < |cards| ==> cards[k].gameId != gameId
  {
    match TopCard(cards, gameId)
    case None => Err(NotFoundError("No hay cartas en el mazo."))
    case Some(t) => Ok((cards[t].color, cards[t].value))
  }
}
