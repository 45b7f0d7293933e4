# UNO-API service core in Dafny

This project models the service layer of UNO-API, a REST back end for the
UNO card game. The model covers:

- creating, joining, leaving, starting and ending games;
- the readiness flag each player sets before a game starts;
- dealing, playing and drawing cards, and declaring and challenging "UNO";
- the final standings written when a player empties their hand;
- the score records and their lookups;
- the validators for new users and new scores;
- the error taxonomy;
- the process-wide token blacklist;
- the in-memory LRU response cache for GET requests.

The document store is modelled as the class `Store.Db`. It holds games by
id, users, cards in creation order (a card's id is its position), readiness
rows, score records and the game history. Each service is a method that
names the fields it writes in its `modifies` clause. The read-only guard
chains are pure functions that the methods call, so every error path can be
stated once and reused.

Dafny module to source file:

| module | source |
|---|---|
| `Store` | the repositories in `src/data/repositories` |
| `Js` | the JavaScript value semantics the services rely on (truthiness, `%`, `ObjectId.isValid`) |
| `CardService` | `src/business/services/card/CardService.js` |
| `GameService` | `src/business/services/game/gameService.js` |
| `LegacyGameService` | `src/business/services/gameService.js` |
| `StartGameService` | `src/business/services/game/StartGameService.js` |
| `CreationGameService` | `src/business/services/game/CreationGameService.js` |
| `PlayerGameStateService` | `src/business/services/playerGameStateService.js` |
| `ScoreService` | `src/business/services/score/ScoreService.js` |
| `BonusScoreStrategy` | `src/business/services/score/BonusScoreStrategy.js` |
| `ScoreValidator` | `src/business/validators/ScoreValidator.js` |
| `UserValidator` | `src/business/validators/userValidator.js` |
| `Errors` | `src/utils/customErrors.js` |
| `TokenBlacklistService` | `src/business/services/TokenBlacklistService.js` |
| `CacheMiddleware` | `src/presentation/middlewares/CacheMiddleware.js` |

A thrown error is an `Err` result. A JavaScript `TypeError`, such as one
raised by reading a property of `null` or `undefined`, is `Errors.TypeError()`. This error
has no HTTP status.

## Model

| member | source | states |
|---|---|---|
| Store.Select | src/business/services/game/StartGameService.js:46 | a query returns exactly the ids of the cards it matches, each once, in creation order |
| Store.DrawFromDeck | src/business/services/card/CardService.js:105-109 | the draw yields a deck card of the game (unowned, not discarded), and yields nothing exactly when the game's deck is empty |
| Store.TopCard | src/data/repositories/cardRepository.js:17-19 | the newest card of the game; none exactly when the game has no card |
| Store.FindUser | src/data/repositories/userRepository.js:18-20 | a user with that id taken from the store; none exactly when no user has that id |
| Store.SeatHolder | src/business/services/card/CardService.js:41 | the player at the turn index, which exists exactly when the index is set and in range |
| Store.SelectAppend | src/business/services/card/CardService.js:171 | creating a card appends its id to every query result it matches and changes no other result |
| Store.CountUpdate | src/business/services/card/CardService.js:112 | rewriting one card changes a query's size only by that card leaving or joining the result |
| Store.SelectUpdateSame | src/business/services/game/StartGameService.js:51 | rewriting a card without changing whether it matches leaves the query result unchanged |
| Store.SelectDropLast | src/business/services/game/StartGameService.js:50-52 | taking the newest card out of a query result leaves the rest of the result, in order |
| CardService.DistributeCards | src/business/services/card/CardService.js:10-28 | a deck smaller than players × cards per player is refused with a 409 and nothing changes; otherwise exactly that many cards are dealt from the end of the deck, round the seats |
| CardService.DealOwners | src/business/services/card/CardService.js:17-24 | the i-th card popped from the deck goes to seat i mod n, and no card outside the dealt part changes |
| CardService.DealHands | src/business/services/card/CardService.js:17-24 | each player's hand grows by the number of deals that reached their seat |
| CardService.OccRounds | src/business/services/card/CardService.js:23 | in k full rounds over distinct seats, every seated player is dealt to exactly k times and nobody else is |
| CardService.EachPlayerDealt | src/business/services/card/CardService.js:10-28 | dealing a distinct deck of unowned cards gives each seated player exactly `cardsPerPlayer` more cards and every other user none |
| CardService.CheckTurn | src/business/services/card/CardService.js:31-43 | succeeds exactly when the game exists, is not finished and its seat holder is the player; otherwise gives 404, 409, TypeError (no seat at the index) or 405, in that order |
| CardService.CheckPlay | src/business/services/card/CardService.js:45-58 | succeeds exactly when the card exists, is in the player's hand and matches the game's newest card by colour or value or is wild; otherwise gives 404, TypeError, 401, TypeError (no top card) or 400, in that order |
| CardService.PlayCard | src/business/services/card/CardService.js:30-88 | a failed guard changes nothing; otherwise the play is logged, the card is discarded and the hand shrinks by one; an empty hand wins the game, any other hand passes the turn |
| CardService.FinishGame | src/business/services/card/CardService.js:63-73 | when the standings can be computed, the game is finished with the player as winner and the standings are returned; otherwise the error surfaces and neither the game nor the scores change |
| CardService.PassTurn | src/business/services/card/CardService.js:75-87 | "reverse" reverses the seating; the turn moves on (two seats for "skip"), and the new seat holder is named with the matching message |
| CardService.TurnAdvance | src/business/services/card/CardService.js:75-82 | with any value but "reverse", the seating is unchanged and the turn moves one seat on, or two for "skip", modulo the player count |
| CardService.ReverseHandsTurnTo | src/business/services/card/CardService.js:78-82 | after "reverse" from seat t among n players, the turn goes to the player who sat at n-1-((t+1) mod n) before the reversal |
| CardService.DrawCard | src/business/services/card/CardService.js:90-121 | a failed turn guard or an empty deck changes nothing; otherwise one deck card joins the player's hand, the deck shrinks by one, the draw is logged, the turn moves one seat on and the card read before the write is returned |
| CardService.DeclareUno | src/business/services/card/CardService.js:123-135 | a player whose hand does not hold exactly one card is refused and nothing changes; otherwise the declaration is logged and recorded in the game's UNO status |
| CardService.CheckChallenge | src/business/services/card/CardService.js:138-159 | succeeds exactly when the game exists and the challenged player holds exactly one card that they did not declare; otherwise gives 404 or one of the two 409 errors, in that order |
| CardService.GenerateRandomCard | src/utils/cardUtils.js:1-12 | a new card of the game in the player's hand, with a colour and value taken from the fixed lists |
| CardService.ChallengeUno | src/business/services/card/CardService.js:137-186 | as written: a failed guard changes nothing; with a non-empty deck the challenged player gains one card, not two; with an empty deck two generated cards are added to their hand |
| CardService.ChallengeUnoSequential | src/business/services/card/CardService.js:161-185 | corrected: the challenged player always gains exactly two cards, each a deck card of the game or a generated one |
| CardService.PenaltyDraw | src/business/services/card/CardService.js:161-182 | one penalty card (the next deck card, or a generated card when the deck is empty) adds exactly one card to the hand and changes nothing else |
| CardService.PenalizedTwice | src/business/services/card/CardService.js:161-182 | two penalty steps in a row are again only deck cards handed to the player and new cards created for them |
| CardService.PenalizedByDeckCard | src/business/services/card/CardService.js:182 | handing a deck card of the game to the player is a penalty step |
| CardService.PenalizedByNewCard | src/business/services/card/CardService.js:171 | creating a generated card for the player is a penalty step and keeps every older card |
| CardService.ConcurrentDrawsCoincide | src/business/services/card/CardService.js:161-164 | the two simultaneous draws see the same deck and return the same card, so the two ownership writes coincide and the hand grows by one |
| CardService.TwoNewCards | src/business/services/card/CardService.js:169-173 | two cards created for the player add two cards to their hand and leave every older card alone |
| CardService.PlayerHand | src/business/services/card/CardService.js:188-201 | one "colour value" entry for each card the player holds, in creation order; empty when they hold none |
| CardService.TopDeckCard | src/business/services/card/CardService.js:203-214 | the colour and value of the newest card of the game; 404 exactly when the game has no card |
| GameService.CheckJoin | src/business/services/game/gameService.js:12-23 | succeeds exactly when the game exists, the user is not seated and a seat is free; otherwise gives 404, 409 or 400, in that order |
| GameService.CheckLeave | src/business/services/game/gameService.js:32-47 | succeeds exactly when both ids are present, the game id is a well-formed ObjectId, the game exists and the user is seated; otherwise gives 400, 400, 404 or 409, in that order |
| GameService.CheckCreator | src/business/services/game/gameService.js:55-72 | succeeds exactly when both parameters are present, the game exists, the token authenticates and its subject is the creator; otherwise gives 400, 404, 401 or 401 with the action named |
| GameService.Without | src/data/repositories/gameRepository.js:37-39 | the user is gone from the seating, every other user keeps the number of seats they hold, and a user without a seat changes nothing |
| GameService.WithoutAppend | src/data/repositories/gameRepository.js:37-39 | pulling works seat by seat: pulling from two stretches of seats and joining them gives the same seating, so the other seats keep their order |
| GameService.WithoutCut | src/data/repositories/gameRepository.js:37-39 | a user holding exactly one seat loses just that seat, and the seats before and after it stay in order |
| GameService.Reverse | src/business/services/card/CardService.js:79 | the seating in reverse order |
| GameService.NextTurnIndex | src/business/services/game/gameService.js:96-102 | from any index of at least -1 (an unset one counts as 0), the next seat is within range |
| GameService.NextTurnAdvances | src/business/services/game/gameService.js:96-102 | from a valid seat t, the next seat is (t+1) mod n, or (t+2) mod n when skipping |
| GameService.GetNextPlayer | src/business/services/game/gameService.js:84-116 | a missing game or an empty seating is refused and nothing changes; otherwise only the turn index is rewritten, and the player at the new seat is returned |
| GameService.JoinGame | src/business/services/game/gameService.js:11-29 | a failed join guard changes nothing; otherwise the user's readiness row is set to not ready and the user takes the last seat |
| GameService.LeaveGame | src/business/services/game/gameService.js:31-51 | a failed leave guard changes nothing; otherwise the user no longer holds any seat and the other seats keep their order |
| GameService.EndGame | src/business/services/game/gameService.js:54-81 | only the creator can end the game, and only a started game; on success the status becomes finished and nothing else changes |
| GameService.Populate | src/data/repositories/gameRepository.js:29-31 | the seats whose users exist, each with that user's id and name; when every user exists, entry i is the user seated at `players[i]`, so the order is the seating order |
| GameService.CurrentPlayer | src/business/services/game/gameService.js:119-153 | the id is required, the game must exist and be started; the answer is the populated seat at the turn index, which is the id and name of `players[turnIndex]` when every seated user exists; an index out of range gives a 400 |
| GameService.GameStatus | src/business/services/game/gameService.js:155-165 | the game's status, or 404 exactly when the game does not exist |
| GameService.GamePlayers | src/business/services/game/gameService.js:167-177 | the game's seating, or 404 exactly when the game does not exist |
| LegacyGameService.CreateGame | src/business/services/gameService.js:11-23 | every field is required, then the creator must exist; on success only the new game is added |
| LegacyGameService.JoinGame | src/business/services/gameService.js:25-41 | the join guards, then the user takes the last seat without exceeding the limit; no readiness row is written |
| LegacyGameService.StartGame | src/business/services/gameService.js:65-94 | creator only; every readiness row of the game must be ready (a game without rows passes); on success only the status changes |
| LegacyGameService.CurrentPlayerName | src/business/services/gameService.js:126-154 | the same outcome as the newer lookup, answered with the name only: the name of `players[turnIndex]` when every seated user exists |
| LegacyGameService.AllGames | src/business/services/gameService.js:156-162 | every game, or 404 exactly when there is none |
| LegacyGameService.GameById | src/business/services/gameService.js:164-170 | the game, or 404 exactly when it does not exist |
| LegacyGameService.ApplyPatch | src/business/services/gameService.js:196-202 | each of the eight updatable fields, the UNO status included, takes the update's value when the update sets it and keeps its old value otherwise |
| LegacyGameService.PatchIdempotent | src/business/services/gameService.js:196-202 | applying the same update twice is the same as applying it once, and an empty update changes nothing |
| LegacyGameService.UpdateGame | src/business/services/gameService.js:196-202 | the patched game is stored and returned, or 404 with nothing changed |
| LegacyGameService.DeleteGame | src/business/services/gameService.js:204-210 | the game is removed and returned, or 404 with nothing changed |
| StartGameService.GameRows | src/business/services/game/StartGameService.js:37 | exactly the readiness rows of the game |
| StartGameService.Users | src/business/services/game/StartGameService.js:74 | the users of the rows, one per row, in row order |
| StartGameService.PlayersDistinct | src/business/services/game/StartGameService.js:74 | with one row per (user, game) pair, no player is dealt to twice |
| StartGameService.FirstCard | src/business/services/game/StartGameService.js:50 | the flipped card is a deck card of the game |
| StartGameService.FlipDeck | src/business/services/game/StartGameService.js:50-52 | after the flip, the deck is the old deck without its newest card, so that card is never dealt |
| StartGameService.OpeningHands | src/business/services/game/StartGameService.js:45-55 | with distinct players and a large enough deck, every player's hand grows by exactly two cards and nobody else's changes |
| StartGameService.OpenDeck | src/business/services/game/StartGameService.js:45-55 | an empty deck is a plain error and nothing changes; otherwise the newest deck card is flipped and returned, and each distinct player gains two cards |
| StartGameService.CheckStart | src/business/services/game/StartGameService.js:57-70 | in order: the creator guards, every row ready, at least one row; on success, the users of the game's rows in order, never empty |
| StartGameService.StartGame | src/business/services/game/StartGameService.js:57-83 | a failed guard changes nothing; otherwise the game is started before the deck is touched (so a deck error leaves it started), and each player gains two cards |
| CreationGameService.NewGame | src/business/services/game/CreationGameService.js:15 | a new game has the given fields, no seats, no turn, no UNO declarations and no winner |
| CreationGameService.CreateGame | src/business/services/game/CreationGameService.js:5-16 | an empty title or a zero player limit is refused, then the creator must exist; on success only the new game is added |
| PlayerGameStateService.FindRow | src/business/services/playerGameStateService.js:23 | the first row for the (user, game) pair; none exactly when the pair has no row |
| PlayerGameStateService.UpsertSpec | src/business/services/playerGameStateService.js:22-30 | after the upsert the pair's row holds the new flag, other rows are unchanged, a row is added only when the pair had none, and one row per pair is preserved |
| PlayerGameStateService.UpdateReadyState | src/business/services/playerGameStateService.js:7-33 | both ids are required, the game is checked before the user, and on success the pair's row is created or its flag replaced |
| ScoreService.NonWinners | src/business/services/score/ScoreService.js:93-95 | exactly the non-empty seats that are not the winner |
| ScoreService.FirstRunnerUp | src/business/services/score/ScoreService.js:93-99 | the first runner-up is the first seat, in seating order, that is neither empty nor the winner |
| ScoreService.Standings | src/business/services/score/ScoreService.js:97-104 | the winner scores 10; only the first two runners-up can score, with 5 or 3; the placeholder key never appears |
| ScoreService.StandingsRanks | src/business/services/score/ScoreService.js:93-104 | with distinct seats, the standings are exactly the winner 10, the first runner-up 5 and the second runner-up 3, as far as there are players |
| ScoreService.NonWinnersDistinct | src/business/services/score/ScoreService.js:93-95 | distinct seats give distinct runners-up |
| ScoreService.ScoresOf | src/business/services/score/ScoreService.js:48 | exactly the records of the game |
| ScoreService.CalculateFinalScores | src/business/services/score/ScoreService.js:77-113 | a missing game, a missing winner or an empty seating is refused and no score is written; otherwise one record per standing is written and the standings are returned |
| ScoreService.WriteStandings | src/business/services/score/ScoreService.js:106-110 | the scores become the old scores plus exactly one record per standing, each carrying that standing's value |
| ScoreService.WritingStep | src/business/services/score/ScoreService.js:107-109 | recording one pending standing moves it out of the pending set |
| ScoreService.CreateScore | src/business/services/score/ScoreService.js:11-16 | invalid input is refused and nothing is written; otherwise one record is appended, with the bonus strategy's score |
| ScoreService.GetAllScores | src/business/services/score/ScoreService.js:22-28 | every record, or 404 exactly when there is none |
| ScoreService.GetScoreById | src/business/services/score/ScoreService.js:30-36 | the record with that id, or 404 exactly when there is none |
| ScoreService.ApplyScorePatch | src/business/services/score/ScoreService.js:61-67 | the fields the update sets take their new values, and the id and the other fields are kept |
| ScoreService.UpdateScore | src/business/services/score/ScoreService.js:61-67 | the record is patched in place and returned, or 404 with nothing changed |
| ScoreService.DeleteScore | src/business/services/score/ScoreService.js:69-75 | the record is removed and returned, the others keep their order, or 404 with nothing changed |
| ScoreService.NameTableLatest | src/business/services/score/ScoreService.js:53-56 | the table's names are exactly the players' names, and each name holds the score of its last record, since later records overwrite earlier ones |
| ScoreService.NamesOf | src/business/services/score/ScoreService.js:55 | the name of each record's player, defined exactly when every player resolves |
| ScoreService.GetScoresByGame | src/business/services/score/ScoreService.js:38-59 | an id is required, the game must exist and have scores; the result maps each player's name to the score of their last record in the game; a record whose player does not resolve gives a TypeError |
| ScoreService.NameTableStep | src/business/services/score/ScoreService.js:54-56 | one more resolved record extends the names and overwrites the table at that player's name |
| ScoreService.NameTableSnoc | src/business/services/score/ScoreService.js:55 | adding a record to the table sets its name to its score |
| BonusScoreStrategy.CalculateScore | src/business/services/score/BonusScoreStrategy.js:4-6 | the base score plus the bonus; no bonus or a zero bonus keeps the base score, and a non-negative bonus never lowers it |
| BonusScoreStrategy.AbsentBonusIsZero | src/business/services/score/BonusScoreStrategy.js:4-6 | a missing bonus and a bonus of 0 give the same score |
| ScoreValidator.ValidateScoreData | src/business/validators/ScoreValidator.js:4-12 | accepts exactly non-empty ids and a positive numeric base score; missing fields are reported before a bad number |
| ScoreValidator.ZeroIsMissing | src/business/validators/ScoreValidator.js:5-7 | a base score of 0 is reported as a missing field |
| UserValidator.FindAt | src/business/validators/userValidator.js:34-35 | the position of the first '@', or the length when there is none |
| UserValidator.EmailCheckMatchesPattern | src/business/validators/userValidator.js:33-36 | the email check accepts exactly the strings the pattern `^[^\s@]+@[^\s@]+\.[^\s@]+$` matches |
| UserValidator.EmailCheckSound | src/business/validators/userValidator.js:33-36 | every accepted string matches the pattern |
| UserValidator.EmailCheckComplete | src/business/validators/userValidator.js:33-36 | every string matching the pattern is accepted |
| UserValidator.ValidateRegistration | src/business/validators/userValidator.js:5-23 | accepts exactly truthy fields, a name of at least 3 characters, a well-formed email and no short string password; the checks run missing fields, name, email, password, and the first failure gives its own message |
| UserValidator.FindByEmailOrName | src/data/repositories/userRepository.js:5-7 | a stored user whose email or name clashes; none exactly when neither is taken |
| UserValidator.EnsureUserDoesNotExist | src/business/validators/userValidator.js:25-31 | passes exactly when neither the email nor the name is taken; when some user has the email and every user with the name also has the email, "Email already registered" is reported; when no user has the email, "Username already registered" |
| Errors.StatusCodes | src/utils/customErrors.js:10-26 | each subclass carries its own status: 400 for validation, 404 for not found, 401 for unauthorized, with 409 and 405 for conflict and method-not-allowed |
| Errors.MessageOrDefault | src/utils/customErrors.js:10-26 | a given message is kept verbatim, and a missing one is replaced by the class's default text, which is never empty |
| Errors.CustomErrorStores | src/utils/customErrors.js:2-8 | a custom error keeps exactly the status and message it is given |
| TokenBlacklistService.TokenBlacklist.constructor | src/business/services/TokenBlacklistService.js:2-8 | a new blacklist is empty |
| TokenBlacklistService.TokenBlacklist.Add | src/business/services/TokenBlacklistService.js:10-12 | the token is added to the blacklist and no other token changes; adding twice is the same as adding once |
| TokenBlacklistService.TokenBlacklist.Has | src/business/services/TokenBlacklistService.js:14-16 | true exactly when the token was added |
| TokenBlacklistService.Registry.Construct | src/business/services/TokenBlacklistService.js:2-8 | the first construction creates the shared instance with an empty blacklist, and every later one returns that same instance |
| CacheMiddleware.Touch | src/presentation/middlewares/CacheMiddleware.js:44-47 | the key ends up at the most recent end of the recency list, and the list holds exactly the old keys and the touched one |
| CacheMiddleware.Remove | src/presentation/middlewares/CacheMiddleware.js:45 | the key is gone from the recency list, every other key stays, an absent key changes nothing, and a list without repeats keeps none |
| CacheMiddleware.RemoveCut | src/presentation/middlewares/CacheMiddleware.js:45 | in a list without repeats, removing the key at position i cuts out exactly that position, so the other keys keep their order |
| CacheMiddleware.TouchSpec | src/presentation/middlewares/CacheMiddleware.js:44-47 | touching keeps the list free of repeats and makes the key the most recent; the other keys keep their relative order (the key's old position is cut out, or the key is appended when new), so the list stays ordered from least to most recently used |
| CacheMiddleware.Cache.constructor | src/presentation/middlewares/CacheMiddleware.js:1-4 | an empty cache; a missing `max` is 50 and a missing `maxAge` is 30000 milliseconds |
| CacheMiddleware.Cache.Evict | src/presentation/middlewares/CacheMiddleware.js:49-56 | the entry and its recency are dropped, and the cache stays consistent |
| CacheMiddleware.Cache.EvictOldest | src/presentation/middlewares/CacheMiddleware.js:49-56 | the least recently used entry, if any, is dropped, and the size shrinks by one |
| CacheMiddleware.Cache.Renew | src/presentation/middlewares/CacheMiddleware.js:13-19 | a served entry gets the new timestamp and becomes the most recently used |
| CacheMiddleware.Cache.Handle | src/presentation/middlewares/CacheMiddleware.js:6-26 | a non-GET request bypasses the cache; a fresh entry is served and renewed; an expired entry is evicted and missed; an absent one is missed |
| CacheMiddleware.Cache.Store | src/presentation/middlewares/CacheMiddleware.js:28-39 | when the cache is full, the least recently used entry is evicted first; the body is then stored as the most recent entry, and the size bound holds |
| CacheMiddleware.Cache.SizeOfKeys | src/presentation/middlewares/CacheMiddleware.js:28-30 | the cache's size is the length of its recency list, which has no repeats |

## Left out

- HTTP controllers, routing, sockets and response shaping are not modelled. A service's result is its value or its error, not the HTTP body.
- Authentication is an input. `auth: Option<Id>` is the token's subject, and `None` stands for a token that does not verify. The JWT logic is not part of this model.
- Mongo cast errors for malformed ids are not modelled. `ObjectId.isValid` is modelled as "24 hexadecimal digits" only.
- Card ids are store positions. Ordering by `createdAt` is ordering by position.
- User documents carry only the fields the services read.
- The game document follows the fields the services read and write: players, turnIndex, creator, unoStatus, winner and a four-valued status. It does not follow the Mongoose schema in `src/data/models/gameModel.js:3-7`, which declares only `title`, a Boolean `status` and `maxPlayers`. Schema validation and casting against that schema are not modelled.
- History entries have no timestamp, and console logging is left out.
- `Date.now()` is the parameter `now` of the cache methods.
- Randomness is modelled as a nondeterministic choice. `CardService.GenerateRandomCard` only promises a colour and a value from the fixed lists.
- `Promise.all` gives no order to its writes. `ScoreService.WriteStandings` picks the standings in any order, and its contract does not fix the order of the records.
- The card repository file defines neither `drawFromDeck`, `findAllInDeck` nor `getPlayerCards`. `Store.DrawFromDeck`, `Store.DeckOf` and `Store.PlayerCards` give them the meaning their names describe.
- The game repository file defines neither `getGameWithPlayers` nor `updateUnoStatus`. `getGameWithPlayers` is read as the stored game document, `db.games[gameId]`, with player ids rather than populated users. `updateUnoStatus` is read as an update of one game that sets `unoStatus[playerId]` to true and does nothing, without an error, when the game does not exist; so `CardService.DeclareUno` logs and succeeds for a missing game.
- Store.DrawFromDeck: always picks the oldest deck card, where the repository promises only some deck card.
- `getGameScores` is left out. It calls `ScoreRepository.getScores`, which the score repository does not define.
- `setScoreStrategy` and choosing a strategy are left out. The constructor's default strategy class is never imported, so only the bonus strategy is reachable.
- Numbers are integers. Fractional and non-finite scores are not modelled.
- String lengths count characters, not UTF-16 code units.
- The older service file's `leaveGameService`, `endGameService`, `getSatusById` and `getUserById` are identical to those of the newer file. They are modelled once, by `GameService.LeaveGame`, `GameService.EndGame`, `GameService.GameStatus` and `GameService.GamePlayers`.
- `ConflictError` and `MethodNotAllowedError` are imported by the services but not exported by the error module. They are modelled as statuses 409 and 405 with no default text.
- challengeUno has two branches that cannot be reached: `!playerCards` (the query always returns a list) and "There are no cards in the deck to draw." (missing cards are always generated). They have no counterpart in the model.
- CacheMiddleware.Cache.Renew: the source mutates the cached entry's timestamp in place. The model stores a new entry with the same body.
- A failed write of the repository (`updateById` returning `null` after the game was read) cannot happen in the single-threaded store, so "No se pudo actualizar el turno en la base de datos." is not modelled.

## Findings

| source | as written | input that shows it | evidently intended | confidence | as-written member | corrected member |
|---|---|---|---|---|---|---|
| src/business/services/card/CardService.js:161-183 | both penalty draws run at once, read the same deck and return the same card, so both writes hand that one card to the player | any successful challenge while the game's deck holds at least one card: the challenged player's hand grows by 1 | the message says the player "has drawn 2 cards": the hand should grow by exactly 2 | not executed | CardService.ChallengeUno | CardService.ChallengeUnoSequential |
