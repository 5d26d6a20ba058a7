/** The state a `BeloteGame` carries (belote.py lines 10-21): seats, hands,
    bid history, contract, the trick in progress, each seat's won cards,
    the scores and the trump. */
module Game {
  import opened Results
  import opened Cards

  /** The four seats, `players = ['SOUTH','WEST','NORTH','EAST']`. */
  datatype Player = South | West | North | East

  /** An index into the seating order. */
  type Seat = i: int | 0 <= i < 4

  const Players: seq<Player> := [South, West, North, East]

  /** `players.index(p)`. */
  function SeatOf(p: Player): (i: Seat)
    ensures Players[i] == p
  {
    match p
    case South => 0
    case West => 1
    case North => 2
    case East => 3
  }

  /** The seat `i` places after `p` in playing order, `players[(idx + i) % 4]`. */
  function After(p: Player, i: nat): Player {
    Players[(SeatOf(p) + i) % 4]
  }

  /** One entry of a trick: who played which card. */
  datatype Ply = Ply(player: Player, card: Card)

  /** A bid entry's payload: the string 'PASS', or a `(points, suit)` tuple whose
      suit is `None` when the human passes. */
  datatype Bid = Pass | Offer(points: int, suit: Option<Suit>)

  datatype BidEntry = BidEntry(player: Player, bid: Bid)

  datatype Contract = Contract(player: Player, points: int, suit: Option<Suit>, coinched: bool, surcoinched: bool)

  /** `{'NS': .., 'WE': ..}`. */
  datatype Scores = Scores(ns: int, we: int)

  datatype GameState = GameState(
    roomId: string,
    hands: map<Player, seq<Card>>,
    bids: seq<BidEntry>,
    contract: Option<Contract>,
    currentPlayer: Seat,
    trick: seq<Ply>,
    wonTricks: map<Player, seq<Card>>,
    scores: Scores,
    trump: Option<Suit>)

  /** Every seat has an entry. */
  predicate Seated<T>(m: map<Player, T>) {
    South in m && West in m && North in m && East in m
  }

  lemma SeatedHas<T>(m: map<Player, T>, p: Player)
    requires Seated(m)
    ensures p in m
  {
  }

  /** A seat's cards, or none when the seat has no entry. */
  function Pile(m: map<Player, seq<Card>>, p: Player): seq<Card> {
    if p in m then m[p] else []
  }

  /** All cards held in a per-seat map, counted with multiplicity. */
  function Holdings(m: map<Player, seq<Card>>): multiset<Card> {
    multiset(Pile(m, South)) + multiset(Pile(m, West)) + multiset(Pile(m, North)) + multiset(Pile(m, East))
  }

  /** The cards of a trick, `[c for _, c in trick]`. */
  function TrickCards(t: seq<Ply>): seq<Card> {
    seq(|t|, i requires 0 <= i < |t| => t[i].card)
  }

  /** The cards of two tricks laid end to end are the cards of the first
      followed by the cards of the second. */
  lemma TrickCardsAppend(t: seq<Ply>, u: seq<Ply>)
    ensures TrickCards(t + u) == TrickCards(t) + TrickCards(u)
  {
    assert |TrickCards(t + u)| == |TrickCards(t) + TrickCards(u)|;
    forall i | 0 <= i < |t| + |u| ensures TrickCards(t + u)[i] == (TrickCards(t) + TrickCards(u))[i] {
      if i < |t| {
        assert (t + u)[i] == t[i];
      } else {
        assert (t + u)[i] == u[i - |t|];
      }
    }
  }

  /** Every card the game knows of: in the hands, on the table, in the won piles. */
  function CardsInPlay(g: GameState): multiset<Card> {
    Holdings(g.hands) + multiset(TrickCards(g.trick)) + Holdings(g.wonTricks)
  }

  /** `BeloteGame(room_id)`: nothing dealt, no bids, SOUTH to act, every seat
      with an empty won pile, both scores 0, no trump. */
  function NewGame(roomId: string): (g: GameState)
    ensures Seated(g.wonTricks)
    ensures |g.hands| == 0
    ensures CardsInPlay(g) == multiset{}
    ensures g.currentPlayer == 0 && g.contract == None && g.trump == None
    ensures g.scores == Scores(0, 0) && |g.bids| == 0 && |g.trick| == 0
  {
    GameState(roomId, map[], [], None, 0, [],
              map[South := [], West := [], North := [], East := []],
              Scores(0, 0), None)
  }
}
