/** `_determine_trick_winner` (belote.py lines 119-131): who takes a trick. */
module Tricks {
  import opened Results
  import opened Cards
  import opened Game

  /** The suit of the first card played. */
  function LeadSuit(t: seq<Ply>): Suit
    requires |t| > 0
  {
    t[0].card.suit
  }

  /** Some card of the first `n` plays is trump. */
  predicate TrumpAmong(t: seq<Ply>, trump: Option<Suit>, n: int)
    requires 0 <= n <= |t|
  {
    exists j :: 0 <= j < n && IsTrump(t[j].card, trump)
  }

  /** Play `b` is the best of the first `n` plays: when a trump was played, `b`
      is the highest trump by the trump table, strictly above every earlier
      trump; otherwise `b` is the highest card of the lead suit by the normal
      table, strictly above every earlier card of that suit. */
  predicate BestAmong(t: seq<Ply>, trump: Option<Suit>, n: int, b: int)
    requires 0 < n <= |t|
  {
    && 0 <= b < n
    && if TrumpAmong(t, trump, n) then
         && IsTrump(t[b].card, trump)
         && (forall j :: 0 <= j < n && IsTrump(t[j].card, trump) ==> TrumpValue(t[j].card.rank) <= TrumpValue(t[b].card.rank))
         && (forall j :: 0 <= j < b && IsTrump(t[j].card, trump) ==> TrumpValue(t[j].card.rank) < TrumpValue(t[b].card.rank))
       else
         && t[b].card.suit == LeadSuit(t)
         && (forall j :: 0 <= j < n && t[j].card.suit == LeadSuit(t) ==> NormalValue(t[j].card.rank) <= NormalValue(t[b].card.rank))
         && (forall j :: 0 <= j < b && t[j].card.suit == LeadSuit(t) ==> NormalValue(t[j].card.rank) < NormalValue(t[b].card.rank))
  }

  /** Play `b` wins the whole trick. */
  predicate Wins(t: seq<Ply>, trump: Option<Suit>, b: int)
    requires |t| > 0
  {
    BestAmong(t, trump, |t|, b)
  }

  /** At most one play wins a trick. */
  lemma WinnerUnique(t: seq<Ply>, trump: Option<Suit>, a: int, b: int)
    requires |t| > 0 && Wins(t, trump, a) && Wins(t, trump, b)
    ensures a == b
  {
  }

  /** The loop of `_determine_trick_winner` over the first `n` plays: a trump
      takes over from a non-trump or from a lower trump; a card of the lead suit
      takes over from a lower card of that suit while no trump leads; any
      other card changes nothing. */
  function BestIndex(t: seq<Ply>, trump: Option<Suit>, n: int): (b: int)
    requires 0 < n <= |t|
    ensures BestAmong(t, trump, n, b)
    decreases n
  {
    if n == 1 then 0
    else
      var b := BestIndex(t, trump, n - 1);
      var card, best := t[n - 1].card, t[b].card;
      assert TrumpAmong(t, trump, n) <==> TrumpAmong(t, trump, n - 1) || IsTrump(card, trump);
      if IsTrump(card, trump) then
        if !IsTrump(best, trump) || TrumpValue(card.rank) > TrumpValue(best.rank) then n - 1 else b
      else if card.suit == LeadSuit(t) && !IsTrump(best, trump) then
        if NormalValue(card.rank) > NormalValue(best.rank) then n - 1 else b
      else
        b
  }

  /** The player who takes the trick.  It is a player of the trick, the one
      whose play `Wins`; the winning card is a trump or of the lead suit. */
  function TrickWinner(t: seq<Ply>, trump: Option<Suit>): (w: Player)
    requires |t| > 0
    ensures exists b :: 0 <= b < |t| && Wins(t, trump, b) && t[b].player == w
    ensures forall b :: 0 <= b < |t| && Wins(t, trump, b) ==>
      IsTrump(t[b].card, trump) || t[b].card.suit == LeadSuit(t)
  {
    var b := BestIndex(t, trump, |t|);
    t[b].player
  }
}
