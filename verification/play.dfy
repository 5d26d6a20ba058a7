/** `play_card` (belote.py lines 95-117): the human's card, then one card from
    each of the three following seats, then the trick goes to its winner. */
module Play {
  import opened Results
  import opened Seqs
  import opened Cards
  import opened Game
  import opened Tricks

  /** What can go wrong, each before the game is updated: a seat with no hand
      entry (`KeyError`), the human's card not in their hand (`ValueError` from
      `list.remove`), a bot with an empty hand (`random.choice` on `[]`). */
  datatype PlayFault =
    | MissingHand(player: Player)
    | NotInHand(player: Player, card: Card)
    | EmptyHand(player: Player)
    | NoPile(player: Player)

  /** The three seats after `p` are three other seats. */
  lemma SeatingOrder(p: Player)
    ensures After(p, 1) != p && After(p, 2) != p && After(p, 3) != p
    ensures After(p, 1) != After(p, 2) && After(p, 1) != After(p, 3) && After(p, 2) != After(p, 3)
  {
    match p
    case South => assert After(p, 1) == West && After(p, 2) == North && After(p, 3) == East;
    case West => assert After(p, 1) == North && After(p, 2) == East && After(p, 3) == South;
    case North => assert After(p, 1) == East && After(p, 2) == South && After(p, 3) == West;
    case East => assert After(p, 1) == South && After(p, 2) == West && After(p, 3) == North;
  }

  /** Hands and the trick while a trick is being played. */
  datatype Table = Table(hands: map<Player, seq<Card>>, trick: seq<Ply>)

  /** Seat `p` plays `c`: `hands[p].remove(c)`, then `trick.append((p, c))`. */
  function Take(tb: Table, p: Player, c: Card): Table
    requires p in tb.hands && c in tb.hands[p]
  {
    Table(tb.hands[p := Remove(tb.hands[p], c)], tb.trick + [Ply(p, c)])
  }

  /** The cards held or on the table. */
  function Stock(tb: Table): multiset<Card> {
    Holdings(tb.hands) + multiset(TrickCards(tb.trick))
  }

  /** A play moves one card from a hand to the table and loses none. */
  lemma TakeConserves(tb: Table, p: Player, c: Card)
    requires p in tb.hands && c in tb.hands[p]
    ensures Stock(Take(tb, p, c)) == Stock(tb)
  {
    var hands, trick := tb.hands, tb.trick;
    var rest := Remove(hands[p], c);
    RemoveMultiset(hands[p], c);
    HoldingsUpdate(hands, p, rest);
    TrickCardsAppend(trick, [Ply(p, c)]);
    assert TrickCards([Ply(p, c)]) == [c];
    MoveOne(Holdings(hands[p := rest]), Holdings(hands), multiset(rest), multiset(hands[p]), multiset(TrickCards(trick)), c);
  }

  /** Multiset bookkeeping for `TakeConserves`: a card leaving a pile and
      joining the trick. */
  lemma MoveOne(after: multiset<Card>, before: multiset<Card>, rest: multiset<Card>, pile: multiset<Card>, t: multiset<Card>, c: Card)
    requires c in pile && rest == pile - multiset{c}
    requires after + pile == before + rest
    ensures after + (t + multiset{c}) == before + t
  {
    assert pile == rest + multiset{c};
    forall x ensures (after + (t + multiset{c}))[x] == (before + t)[x] {
      assert (after + pile)[x] == (before + rest)[x];
    }
  }

  /** The bots' cards are ones `random.choice(hand)` can return: bot `i` (the
      `i + 1`-th seat after the human) plays a card of its own hand whenever
      that hand exists and is non-empty. */
  predicate BotCardsDrawable(hands: map<Player, seq<Card>>, player: Player, botCards: seq<Card>) {
    && |botCards| == 3
    && (After(player, 1) in hands && |hands[After(player, 1)]| > 0 ==> botCards[0] in hands[After(player, 1)])
    && (After(player, 2) in hands && |hands[After(player, 2)]| > 0 ==> botCards[1] in hands[After(player, 2)])
    && (After(player, 3) in hands && |hands[After(player, 3)]| > 0 ==> botCards[2] in hands[After(player, 3)])
  }

  /** The four plays of one call, in seating order from the human. */
  function NewPlies(player: Player, card: Card, botCards: seq<Card>): seq<Ply>
    requires |botCards| == 3
  {
    [Ply(player, card), Ply(After(player, 1), botCards[0]), Ply(After(player, 2), botCards[1]), Ply(After(player, 3), botCards[2])]
  }

  /** Everything a call needs to succeed: the human holds the card and every
      bot has a non-empty hand. */
  predicate Playable(g: GameState, player: Player, card: Card) {
    && player in g.hands && card in g.hands[player]
    && After(player, 1) in g.hands && |g.hands[After(player, 1)]| > 0
    && After(player, 2) in g.hands && |g.hands[After(player, 2)]| > 0
    && After(player, 3) in g.hands && |g.hands[After(player, 3)]| > 0
  }

  /** Seat `q` can play: it has a hand entry and the hand is not empty. */
  predicate Ready(hands: map<Player, seq<Card>>, q: Player) {
    q in hands && |hands[q]| > 0
  }

  /** The `i`-th bot after `player` is the first one that cannot play, and
      `e` is what its turn raises: `KeyError` without a hand entry, the
      empty-sequence error from `random.choice` otherwise. */
  predicate FirstFault(hands: map<Player, seq<Card>>, player: Player, i: int, e: PlayFault) {
    && 1 <= i <= 3
    && !Ready(hands, After(player, i))
    && (forall j :: 1 <= j < i ==> Ready(hands, After(player, j)))
    && e == (if After(player, i) in hands then EmptyHand(After(player, i)) else MissingHand(After(player, i)))
  }

  /** The bots' hand checks in playing order.  The human's play does not
      touch the bots' hands, so the hands before the call decide. */
  function BotFault(hands: map<Player, seq<Card>>, player: Player): (r: Option<PlayFault>)
    ensures r.None? <==> forall i :: 1 <= i <= 3 ==> Ready(hands, After(player, i))
    ensures r.Some? ==> exists i :: FirstFault(hands, player, i, r.value)
  {
    FaultFrom(hands, player, 1)
  }

  /** The loop over the bots, from the `i`-th one after `player` on: the
      first of them that cannot play names the fault. */
  function FaultFrom(hands: map<Player, seq<Card>>, player: Player, i: nat): (r: Option<PlayFault>)
    requires 1 <= i <= 4
    requires forall j :: 1 <= j < i ==> Ready(hands, After(player, j))
    ensures r.None? <==> forall k :: i <= k <= 3 ==> Ready(hands, After(player, k))
    ensures r.Some? ==> exists k :: i <= k && FirstFault(hands, player, k, r.value)
    decreases 4 - i
  {
    if i == 4 then None
    else if !Ready(hands, After(player, i)) then
      var e := Fault(hands, player, i);
      assert FirstFault(hands, player, i, e);
      Some(e)
    else FaultFrom(hands, player, i + 1)
  }

  /** What the turn of the `i`-th bot raises when it cannot play. */
  function Fault(hands: map<Player, seq<Card>>, player: Player, i: int): PlayFault
    requires 1 <= i <= 3
  {
    (if After(player, i) in hands then EmptyHand(After(player, i)) else MissingHand(After(player, i)))
  }

  /** Seat `ply.player` held `ply.card` and afterwards holds its hand with that one card removed. */
  predicate GaveUp(before: map<Player, seq<Card>>, after: map<Player, seq<Card>>, ply: Ply) {
    && ply.player in before && ply.card in before[ply.player]
    && ply.player in after && after[ply.player] == Remove(before[ply.player], ply.card)
  }

  /** The four removals and appends of a successful call, in playing order. */
  function PlayRound(g: GameState, player: Player, card: Card, botCards: seq<Card>): (tb: Table)
    requires Playable(g, player, card) && BotCardsDrawable(g.hands, player, botCards)
    ensures tb.trick == g.trick + NewPlies(player, card, botCards)
    ensures tb.hands.Keys == g.hands.Keys
    ensures forall ply <- NewPlies(player, card, botCards) :: GaveUp(g.hands, tb.hands, ply)
  {
    SeatingOrder(player);
    var a1, a2, a3 := After(player, 1), After(player, 2), After(player, 3);
    var t0 := Take(Table(g.hands, g.trick), player, card);
    assert t0.hands[a1] == g.hands[a1];
    var t1 := Take(t0, a1, botCards[0]);
    assert t1.hands[a2] == g.hands[a2];
    var t2 := Take(t1, a2, botCards[1]);
    assert t2.hands[a3] == g.hands[a3];
    var t3 := Take(t2, a3, botCards[2]);
    assert t3.trick == g.trick + NewPlies(player, card, botCards);
    t3
  }

  /** The round loses no card and adds none: every card is still in a hand or now on the table. */
  lemma RoundConserves(g: GameState, player: Player, card: Card, botCards: seq<Card>)
    requires Playable(g, player, card) && BotCardsDrawable(g.hands, player, botCards)
    ensures Stock(PlayRound(g, player, card, botCards)) == Stock(Table(g.hands, g.trick))
  {
    SeatingOrder(player);
    var a1, a2, a3 := After(player, 1), After(player, 2), After(player, 3);
    var t0 := Take(Table(g.hands, g.trick), player, card);
    assert t0.hands[a1] == g.hands[a1];
    var t1 := Take(t0, a1, botCards[0]);
    assert t1.hands[a2] == g.hands[a2];
    var t2 := Take(t1, a2, botCards[1]);
    assert t2.hands[a3] == g.hands[a3];
    var t3 := Take(t2, a3, botCards[2]);
    TakeConserves(Table(g.hands, g.trick), player, card);
    TakeConserves(t0, a1, botCards[0]);
    TakeConserves(t1, a2, botCards[1]);
    TakeConserves(t2, a3, botCards[2]);
  }

  /** `play_card(player, card)` with the bots' cards given.  It fails exactly
      when a seat that has to play has no hand entry, the human does not hold
      the card, or a bot's hand is empty; the faults are reported in playing
      order; the winner having no `won_tricks` entry (`KeyError`) comes last.
      Once every seat can play, the call is `PlayTrick`. */
  function PlayCard(g: GameState, player: Player, card: Card, botCards: seq<Card>)
    : (r: Result<(GameState, Player), PlayFault>)
    requires BotCardsDrawable(g.hands, player, botCards)
    ensures r == Err(MissingHand(player)) <==> player !in g.hands
    ensures r == Err(NotInHand(player, card)) <==> player in g.hands && card !in g.hands[player]
    ensures player in g.hands && card in g.hands[player] && !Playable(g, player, card) ==>
              r.Err? && exists i :: FirstFault(g.hands, player, i, r.error)
    ensures r.Err? && r.error.NoPile? ==> Playable(g, player, card)
    ensures r.Ok? <==> Playable(g, player, card) && Winner(g, player, card, botCards) in g.wonTricks
    ensures Playable(g, player, card) ==> r == PlayTrick(g, player, card, botCards)
  {
    SeatingOrder(player);
    if player !in g.hands then Err(MissingHand(player))
    else if card !in g.hands[player] then Err(NotInHand(player, card))
    else match BotFault(g.hands, player)
      case Some(e) => Err(e)
      case None => PlayTrick(g, player, card, botCards)
  }

  /** Who takes the trick made of what was on the table and the four new plays. */
  function Winner(g: GameState, player: Player, card: Card, botCards: seq<Card>): Player
    requires |botCards| == 3
  {
    TrickWinner(g.trick + NewPlies(player, card, botCards), g.trump)
  }

  /** `won_tricks[winner].extend(trick cards)`: the winner's pile grows by
      the trick's cards and no other pile changes. */
  function Award(won: map<Player, seq<Card>>, w: Player, cards: seq<Card>): (r: map<Player, seq<Card>>)
    requires w in won
    ensures r.Keys == won.Keys
    ensures w in r && r[w] == won[w] + cards
    ensures forall q :: q in won && q != w ==> r[q] == won[q]
    ensures Holdings(r) == Holdings(won) + multiset(cards)
  {
    ExtendHoldings(won, w, cards);
    won[w := won[w] + cards]
  }

  /** Extending one seat's pile adds exactly the new cards to all the piles. */
  lemma ExtendHoldings(won: map<Player, seq<Card>>, w: Player, cards: seq<Card>)
    requires w in won
    ensures Holdings(won[w := won[w] + cards]) == Holdings(won) + multiset(cards)
  {
    var after := Holdings(won[w := won[w] + cards]);
    var pile, added := multiset(won[w]), multiset(cards);
    HoldingsUpdate(won, w, won[w] + cards);
    assert multiset(won[w] + cards) == pile + added;
    assert after + pile == Holdings(won) + added + pile;
    MultisetCancel(after, Holdings(won) + added, pile);
  }

  /** `play_card` once every seat can play.  It fails only when the winner
      has no `won_tricks` entry.  Otherwise each seat gives up exactly the card
      it played, the trick (with whatever was on the table before) goes to the
      winner's pile, the table is empty, the winner acts next, and no card
      appears or disappears. */
  function PlayTrick(g: GameState, player: Player, card: Card, botCards: seq<Card>)
    : (r: Result<(GameState, Player), PlayFault>)
    requires Playable(g, player, card) && BotCardsDrawable(g.hands, player, botCards)
    ensures r.Err? <==> Winner(g, player, card, botCards) !in g.wonTricks
    ensures r.Err? ==> r.error == NoPile(Winner(g, player, card, botCards))
    ensures r.Ok? ==> r.value.1 == Winner(g, player, card, botCards)
    ensures r.Ok? ==> forall ply <- NewPlies(player, card, botCards) :: GaveUp(g.hands, r.value.0.hands, ply)
    ensures r.Ok? ==> r.value.0.hands.Keys == g.hands.Keys
    ensures r.Ok? ==> exists b :: 0 <= b < |g.trick| + 4 && Wins(g.trick + NewPlies(player, card, botCards), g.trump, b)
                                && (g.trick + NewPlies(player, card, botCards))[b].player == r.value.1
    ensures r.Ok? ==> r.value.0.wonTricks.Keys == g.wonTricks.Keys && r.value.1 in g.wonTricks
    ensures r.Ok? ==> r.value.0.wonTricks[r.value.1] == g.wonTricks[r.value.1] + TrickCards(g.trick + NewPlies(player, card, botCards))
    ensures r.Ok? ==> forall q :: q in g.wonTricks && q != r.value.1 ==> r.value.0.wonTricks[q] == g.wonTricks[q]
    ensures r.Ok? ==> r.value.0.trick == [] && r.value.0.currentPlayer == SeatOf(r.value.1)
    ensures r.Ok? ==> CardsInPlay(r.value.0) == CardsInPlay(g)
    ensures r.Ok? ==> r.value.0 == g.(hands := r.value.0.hands, trick := [], wonTricks := r.value.0.wonTricks,
                                      currentPlayer := r.value.0.currentPlayer)
  {
    var tb := PlayRound(g, player, card, botCards);
    var w := TrickWinner(tb.trick, g.trump);
    if w !in g.wonTricks then Err(NoPile(w))
    else
      RoundConserves(g, player, card, botCards);
      var won := Award(g.wonTricks, w, TrickCards(tb.trick));
      ResolveConserves(g, tb, w);
      Ok((g.(hands := tb.hands, trick := [], wonTricks := won, currentPlayer := SeatOf(w)), w))
  }

  /** Moving the finished trick onto the winner's pile keeps every card. */
  lemma ResolveConserves(g: GameState, tb: Table, w: Player)
    requires w in g.wonTricks
    requires Stock(tb) == Stock(Table(g.hands, g.trick))
    ensures CardsInPlay(g.(hands := tb.hands, trick := [], wonTricks := Award(g.wonTricks, w, TrickCards(tb.trick)),
                           currentPlayer := SeatOf(w)))
         == CardsInPlay(g)
  {
    var cards := TrickCards(tb.trick);
    var won := Award(g.wonTricks, w, cards);
    var before, after := Holdings(g.wonTricks), Holdings(won);
    var h := g.(hands := tb.hands, trick := [], wonTricks := won, currentPlayer := SeatOf(w));
    assert TrickCards(h.trick) == [];
    assert CardsInPlay(h) == Holdings(tb.hands) + multiset(TrickCards([])) + after;
    assert CardsInPlay(h) == Stock(tb) + before;
    assert CardsInPlay(g) == Stock(Table(g.hands, g.trick)) + before;
  }

  /** Adding the same multiset to both sides can be undone. */
  lemma MultisetCancel(a: multiset<Card>, b: multiset<Card>, x: multiset<Card>)
    requires a + x == b + x
    ensures a == b
  {
    forall e ensures a[e] == b[e] {
      assert (a + x)[e] == (b + x)[e];
    }
  }

  /** Replacing one seat's pile swaps that pile's cards for the new ones. */
  lemma HoldingsUpdate(m: map<Player, seq<Card>>, p: Player, s: seq<Card>)
    requires p in m
    ensures Holdings(m[p := s]) + multiset(m[p]) == Holdings(m) + multiset(s)
  {
    var m' := m[p := s];
    var sm, wm, nm, em := multiset(Pile(m, South)), multiset(Pile(m, West)), multiset(Pile(m, North)), multiset(Pile(m, East));
    var sm', wm', nm', em' := multiset(Pile(m', South)), multiset(Pile(m', West)), multiset(Pile(m', North)), multiset(Pile(m', East));
    assert Holdings(m) == sm + wm + nm + em;
    assert Holdings(m') == sm' + wm' + nm' + em';
    match p
    case South =>
      assert wm' == wm && nm' == nm && em' == em;
      SwapOne(sm, sm', wm, nm, em);
    case West =>
      assert sm' == sm && nm' == nm && em' == em;
      SwapOne(wm, wm', sm, nm, em);
    case North =>
      assert sm' == sm && wm' == wm && em' == em;
      SwapOne(nm, nm', sm, wm, em);
    case East =>
      assert sm' == sm && wm' == wm && nm' == nm;
      SwapOne(em, em', sm, wm, nm);
  }

  /** Multiset bookkeeping for `HoldingsUpdate`, with the replaced pile in
      each of the four places. */
  lemma SwapOne(a: multiset<Card>, a': multiset<Card>, b: multiset<Card>, c: multiset<Card>, d: multiset<Card>)
    ensures a' + b + c + d + a == a + b + c + d + a'
    ensures b + a' + c + d + a == b + a + c + d + a'
    ensures b + c + a' + d + a == b + c + a + d + a'
    ensures b + c + d + a' + a == b + c + d + a + a'
  {
  }
}
