/** `compute_scores` (belote.py lines 133-144): each team's card points,
    counted over the piles its two seats have won. */
module Scoring {
  import opened Results
  import opened Cards
  import opened Game

  /** Position of a seat in the order `compute_scores` reads the piles:
      SOUTH and NORTH for the first team, then WEST and EAST. */
  function ReadOrder(p: Player): nat {
    match p
    case South => 0
    case North => 1
    case West => 2
    case East => 3
  }

  /** `compute_scores`.  It fails with the first seat, in reading order,
      that has no `won_tricks` entry (`KeyError`); otherwise each team scores
      the card points of its two piles and the game keeps the new scores. */
  function ComputeScores(g: GameState): (r: Result<(GameState, Scores), Player>)
    ensures r.Err? <==> !Seated(g.wonTricks)
    ensures r.Err? ==> r.error !in g.wonTricks
                       && forall q :: ReadOrder(q) < ReadOrder(r.error) ==> q in g.wonTricks
    ensures r.Ok? ==> r.value.0 == g.(scores := r.value.1)
    ensures r.Ok? ==> r.value.1.ns == Points(g.wonTricks[South], g.trump) + Points(g.wonTricks[North], g.trump)
    ensures r.Ok? ==> r.value.1.we == Points(g.wonTricks[West], g.trump) + Points(g.wonTricks[East], g.trump)
  {
    if South !in g.wonTricks then Err(South)
    else if North !in g.wonTricks then Err(North)
    else if West !in g.wonTricks then Err(West)
    else if East !in g.wonTricks then Err(East)
    else
      var s := Scores(Points(g.wonTricks[South] + g.wonTricks[North], g.trump),
                      Points(g.wonTricks[West] + g.wonTricks[East], g.trump));
      PointsAppend(g.wonTricks[South], g.wonTricks[North], g.trump);
      PointsAppend(g.wonTricks[West], g.wonTricks[East], g.trump);
      Ok((g.(scores := s), s))
  }

  /** When the four piles together hold exactly the 32 cards, the two teams'
      scores add up to the deck's total: 152 with a trump suit, 120 without. */
  lemma {:induction false} ScoresTotal(g: GameState)
    requires Seated(g.wonTricks)
    requires Holdings(g.wonTricks) == multiset(Deck())
    ensures ComputeScores(g).Ok?
    ensures ComputeScores(g).value.1.ns + ComputeScores(g).value.1.we == DeckTotal(g.trump)
  {
    var won := g.wonTricks;
    var all := won[South] + won[West] + won[North] + won[East];
    PointsAppend(won[South], won[West], g.trump);
    PointsAppend(won[South] + won[West], won[North], g.trump);
    PointsAppend(won[South] + won[West] + won[North], won[East], g.trump);
    assert multiset(all) == Holdings(won);
    PointsPermutation(all, Deck(), g.trump);
    DeckPoints(g.trump);
  }

  /** Once every card is on a won pile, the scores add up to the deck's
      total: with no hand and no trick left, everything in play is won. */
  lemma FinalScores(g: GameState)
    requires Seated(g.wonTricks)
    requires CardsInPlay(g) == multiset(Deck())
    requires Holdings(g.hands) == multiset{} && g.trick == []
    ensures ComputeScores(g).Ok?
    ensures ComputeScores(g).value.1.ns + ComputeScores(g).value.1.we == DeckTotal(g.trump)
  {
    assert TrickCards(g.trick) == [];
    assert Holdings(g.wonTricks) == CardsInPlay(g);
    ScoresTotal(g);
  }
}
