/**
 * The document store the services read and write, held in memory: games by
 * id, users, cards in creation order (a card's id is its position), the
 * readiness rows, score records and the append-only game history. The
 * repository queries the services rely on are functions over these values.
 */
module Store {
  import opened Wrappers

  type Id = string
  type CardId = nat

  /** No element occurs twice. */
  predicate Distinct<T(==)>(s: seq<T>)
  {
    forall i, j :: 0 <= i < j < |s| ==> s[i] != s[j]
  }

  datatype Status = Unset | Pending | Started | Finished

  /** A game document: seating order is the order of `players`; `turnIndex` may be unset. */
  datatype Game = Game(
    title: string,
    status: Status,
    maxPlayers: int,
    players: seq<Id>,
    turnIndex: Option<int>,
    creator: Id,
    unoStatus: map<Id, bool>,
    winner: Option<Id>)

  /** A card: `playerId` None means in the deck or the discard pile. */
  datatype Card = Card(color: string, value: string, gameId: Id, playerId: Option<Id>, discarded: bool)

  datatype User = User(id: Id, name: string, age: int, email: string, password: string)

  /** A player's readiness for one game. */
  datatype ReadyRow = ReadyRow(user: Id, game: Id, ready: bool)

  datatype ScoreRecord = ScoreRecord(id: nat, playerId: Id, gameId: Id, score: int)

  datatype HistoryEntry = HistoryEntry(gameId: Id, playerId: Id, action: string)

  class Db {
    var games: map<Id, Game>
    var users: seq<User>
    var cards: seq<Card>
    var readiness: seq<ReadyRow>
    var scores: seq<ScoreRecord>
    var nextScoreId: nat
    var history: seq<HistoryEntry>

    constructor ()
      ensures games == map[] && users == [] && cards == [] && readiness == []
      ensures scores == [] && nextScoreId == 0 && history == []
    {
      games := map[];
      users := [];
      cards := [];
      readiness := [];
      scores := [];
      nextScoreId := 0;
      history := [];
    }
  }

  /** The card filters the services query by. */
  datatype Query =
    | InDeckOf(gameId: Id)   // in the draw deck of a game: unowned and not discarded
    | HeldBy(playerId: Id)   // in a player's hand, in any game
    | OwnedIn(gameId: Id)    // owned by some player, in a game

  predicate Keeps(q: Query, c: Card)
  {
    match q
    case InDeckOf(g) => c.gameId == g && c.playerId.None? && !c.discarded
    case HeldBy(p) => c.playerId == Some(p)
    case OwnedIn(g) => c.gameId == g && c.playerId.Some?
  }

  /** The ids of the cards a query returns, in creation order. */
  function Select(cards: seq<Card>, q: Query): (r: seq<CardId>)
    ensures forall i :: 0 <= i < |r| ==> r[i] < |cards| && Keeps(q, cards[r[i]])
    ensures forall c :: 0 <= c < |cards| && Keeps(q, cards[c]) ==> c in r
    ensures forall i, j :: 0 <= i < j < |r| ==> r[i] < r[j]
    ensures |r| <= |cards|
  {
    SelectBelow(cards, q, |cards|)
  }

  /** The ids below m that a query keeps, in creation order. */
  function SelectBelow(cards: seq<Card>, q: Query, m: nat): (r: seq<CardId>)
    requires m <= |cards|
    ensures forall i :: 0 <= i < |r| ==> r[i] < m && Keeps(q, cards[r[i]])
    ensures forall c :: 0 <= c < m && Keeps(q, cards[c]) ==> c in r
    ensures forall i, j :: 0 <= i < j < |r| ==> r[i] < r[j]
    ensures |r| <= m
  {
    if m == 0 then []
    else SelectBelow(cards, q, m - 1) + (if Keeps(q, cards[m - 1]) then [m - 1] else [])
  }

  /** How many cards a query returns. */
  function Count(cards: seq<Card>, q: Query): nat
  {
    |Select(cards, q)|
  }

  /** `findAllInDeck(gameId)`: the game's deck cards, oldest first. */
  function DeckOf(cards: seq<Card>, gameId: Id): seq<CardId>
  {
    Select(cards, InDeckOf(gameId))
  }

  /** `getPlayerCards(playerId)`: every card the player holds, in any game. */
  function PlayerCards(cards: seq<Card>, playerId: Id): seq<CardId>
  {
    Select(cards, HeldBy(playerId))
  }

  function HandSize(cards: seq<Card>, playerId: Id): nat
  {
    Count(cards, HeldBy(playerId))
  }

  /**
   * `drawFromDeck(gameId)`: some unowned, non-discarded card of the game, or
   * none when the deck is empty. This model picks the oldest one.
   */
  function DrawFromDeck(cards: seq<Card>, gameId: Id): (r: Option<CardId>)
    ensures r.Some? ==> r.value < |cards| && Keeps(InDeckOf(gameId), cards[r.value])
    ensures r.None? <==> forall c :: 0 <= c < |cards| ==> !Keeps(InDeckOf(gameId), cards[c])
  {
    var deck := DeckOf(cards, gameId);
    if deck == [] then None else Some(deck[0])
  }

  /** `findTopDiscardCard(gameId)`: the newest card of the game, discarded or not. */
  function TopCard(cards: seq<Card>, gameId: Id): (r: Option<CardId>)
    ensures r.Some? ==> r.value < |cards| && cards[r.value].gameId == gameId
    ensures r.Some? ==> forall j :: r.value < j < |cards| ==> cards[j].gameId != gameId
    ensures r.None? <==> forall j :: 0 <= j < |cards| ==> cards[j].gameId != gameId
    decreases |cards|
  {
    if cards == [] then None
    else if cards[|cards| - 1].gameId == gameId then Some(|cards| - 1)
    else TopCard(cards[..|cards| - 1], gameId)
  }

  /** `findById` on users: the first user document with that id. */
  function FindUser(users: seq<User>, id: Id): (r: Option<User>)
    ensures r.Some? ==> r.value in users && r.value.id == id
    ensures r.None? <==> forall i :: 0 <= i < |users| ==> users[i].id != id
  {
    if users == [] then None
    else if users[0].id == id then Some(users[0])
    else FindUser(users[1..], id)
  }

  /** `players[turnIndex]`, or None where JavaScript would read `undefined`. */
  function SeatHolder(g: Game): (r: Option<Id>)
    ensures r.Some? <==> g.turnIndex.Some? && 0 <= g.turnIndex.value < |g.players|
    ensures r.Some? ==> r.value == g.players[g.turnIndex.value]
  {
    match g.turnIndex
    case Some(t) => if 0 <= t < |g.players| then Some(g.players[t]) else None
    case None => None
  }

  /** Cards at or above m play no part in the ids a query keeps below m. */
  lemma {:induction false} SelectBelowPrefix(cards: seq<Card>, cards': seq<Card>, q: Query, m: nat)
    requires m <= |cards| && m <= |cards'|
    requires forall j :: 0 <= j < m ==> cards[j] == cards'[j]
    ensures SelectBelow(cards, q, m) == SelectBelow(cards', q, m)
  {
    if m > 0 {
      SelectBelowPrefix(cards, cards', q, m - 1);
    }
  }

  /** Creating a card appends its id to the result of every query it satisfies. */
  lemma SelectAppend(cards: seq<Card>, c: Card, q: Query)
    ensures Select(cards + [c], q) == Select(cards, q) + (if Keeps(q, c) then [|cards|] else [])
  {
    SelectBelowPrefix(cards + [c], cards, q, |cards|);
  }

  /** Rewriting one card changes a query's size only by that card's leaving or joining it. */
  lemma CountUpdate(cards: seq<Card>, i: nat, c: Card, q: Query)
    requires i < |cards|
    ensures Count(cards[i := c], q) + (if Keeps(q, cards[i]) then 1 else 0)
         == Count(cards, q) + (if Keeps(q, c) then 1 else 0)
  {
    CountBelowUpdate(cards, i, c, q, |cards|);
  }

  lemma {:induction false} CountBelowUpdate(cards: seq<Card>, i: nat, c: Card, q: Query, m: nat)
    requires i < m <= |cards|
    ensures |SelectBelow(cards[i := c], q, m)| + (if Keeps(q, cards[i]) then 1 else 0)
         == |SelectBelow(cards, q, m)| + (if Keeps(q, c) then 1 else 0)
  {
    if i < m - 1 {
      CountBelowUpdate(cards, i, c, q, m - 1);
    } else {
      SelectBelowPrefix(cards[i := c], cards, q, i);
    }
  }

  /** Rewriting a card that no query result depends on leaves the result unchanged. */
  lemma SelectUpdateSame(cards: seq<Card>, i: nat, c: Card, q: Query)
    requires i < |cards|
    requires Keeps(q, cards[i]) == Keeps(q, c)
    ensures Select(cards[i := c], q) == Select(cards, q)
  {
    SelectBelowUpdateSame(cards, i, c, q, |cards|);
  }

  lemma {:induction false} SelectBelowUpdateSame(cards: seq<Card>, i: nat, c: Card, q: Query, m: nat)
    requires i < |cards| && m <= |cards|
    requires Keeps(q, cards[i]) == Keeps(q, c)
    ensures SelectBelow(cards[i := c], q, m) == SelectBelow(cards, q, m)
  {
    if m > 0 {
      SelectBelowUpdateSame(cards, i, c, q, m - 1);
    }
  }

  /** Taking the newest card of a query result out of it leaves the rest of the result in order. */
  lemma SelectDropLast(cards: seq<Card>, q: Query, c: Card)
    requires Select(cards, q) != []
    requires !Keeps(q, c)
    ensures var s := Select(cards, q);
      Select(cards[s[|s| - 1] := c], q) == s[..|s| - 1]
  {
    var s := Select(cards, q);
    var last := s[|s| - 1];
    forall j | last < j < |cards|
      ensures !Keeps(q, cards[j])
    {
      assert forall k :: 0 <= k < |s| ==> s[k] <= last;
    }
    SelectBelowDrop(cards, q, c, last, |cards|);
  }

  /** Rewriting the newest kept card below m out of a query removes just its id. */
  lemma {:induction false} SelectBelowDrop(cards: seq<Card>, q: Query, c: Card, i: nat, m: nat)
    requires i < m <= |cards|
    requires Keeps(q, cards[i]) && !Keeps(q, c)
    requires forall j :: i < j < m ==> !Keeps(q, cards[j])
    ensures SelectBelow(cards, q, m) == SelectBelow(cards[i := c], q, m) + [i]
  {
    if i == m - 1 {
      SelectBelowPrefix(cards[i := c], cards, q, i);
    } else {
      SelectBelowDrop(cards, q, c, i, m - 1);
    }
  }
}


