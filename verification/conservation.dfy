/** Whole-game bookkeeping: from the deal on, every card of the deck stays
    in play exactly once, whatever `start_game` and `play_card` do. */
module Conservation {
  import opened Cards
  import opened Game
  import opened Deal
  import opened Play

  /** The deal puts every card of the deck in play exactly once. */
  lemma DealStock(roomId: string, shuffled: seq<Card>)
    requires IsShuffle(shuffled)
    ensures CardsInPlay(StartGame(NewGame(roomId), shuffled)) == multiset(Deck())
    ensures Seated(StartGame(NewGame(roomId), shuffled).wonTricks)
  {
    var g0 := NewGame(roomId);
    var g1 := StartGame(g0, shuffled);
    assert TrickCards(g1.trick) == [];
    assert Holdings(g1.wonTricks) == multiset{} by {
      assert g1.wonTricks == g0.wonTricks;
      assert Holdings(g0.wonTricks) + multiset(TrickCards(g0.trick)) + Holdings(g0.hands) == multiset{};
    }
  }

  /** When every seat has a pile, a `play_card` in which every seat can play
      succeeds, keeps a pile for every seat and keeps the cards in play. */
  lemma PlayKeepsStock(g: GameState, player: Player, card: Card, botCards: seq<Card>)
    requires Seated(g.wonTricks)
    requires Playable(g, player, card) && BotCardsDrawable(g.hands, player, botCards)
    ensures PlayCard(g, player, card, botCards).Ok?
    ensures Seated(PlayCard(g, player, card, botCards).value.0.wonTricks)
    ensures CardsInPlay(PlayCard(g, player, card, botCards).value.0) == CardsInPlay(g)
  {
    SeatedHas(g.wonTricks, Winner(g, player, card, botCards));
  }
}
