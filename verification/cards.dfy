/** The 32-card deck, the two point tables and the string form `rank + suit`
    in which the game stores its cards (belote.py lines 4-8 and 50). */
module Cards {
  import opened Results
  import opened Seqs

  datatype Suit = Spades | Hearts | Diamonds | Clubs
  datatype Rank = Seven | Eight | Nine | Jack | Queen | King | Ten | Ace
  datatype Card = Card(rank: Rank, suit: Suit)

  /** `SUITS`, in the order the deck is built. */
  const Suits: seq<Suit> := [Spades, Hearts, Diamonds, Clubs]

  /** `RANKS`, in the order the deck is built. */
  const Ranks: seq<Rank> := [Seven, Eight, Nine, Jack, Queen, King, Ten, Ace]

  /** `TRUMP_VALUES`: points of a card of the trump suit.  Trump never makes a
      rank worth less; it raises only the jack and the nine, and the jack is
      worth most. */
  function TrumpValue(r: Rank): (v: nat)
    ensures NormalValue(r) <= v <= 20
    ensures v == NormalValue(r) <==> r != Jack && r != Nine
    ensures v == 20 <==> r == Jack
  {
    match r
    case Jack => 20
    case Nine => 14
    case Ace => 11
    case Ten => 10
    case King => 4
    case Queen => 3
    case Eight => 0
    case Seven => 0
  }

  /** `NORMAL_VALUES`: points of a card of any other suit.  The ace is worth
      most; the seven, eight and nine are worth nothing. */
  function NormalValue(r: Rank): (v: nat)
    ensures v <= 11
    ensures v == 11 <==> r == Ace
    ensures v == 0 <==> r == Seven || r == Eight || r == Nine
  {
    match r
    case Ace => 11
    case Ten => 10
    case King => 4
    case Queen => 3
    case Jack => 2
    case Nine => 0
    case Eight => 0
    case Seven => 0
  }

  /** A card is trump when its suit is the declared trump; with no trump
      (`None`) no card is. */
  predicate IsTrump(c: Card, trump: Option<Suit>) {
    trump == Some(c.suit)
  }

  /** The points a card is worth for the given trump: the trump table for the
      trump suit, the normal table otherwise. */
  function CardValue(c: Card, trump: Option<Suit>): (v: nat)
    ensures NormalValue(c.rank) <= v <= TrumpValue(c.rank)
    ensures trump != Some(c.suit) ==> v == NormalValue(c.rank)
  {
    if IsTrump(c, trump) then TrumpValue(c.rank) else NormalValue(c.rank)
  }

  /** Sum of the card values of a pile. */
  function Points(cs: seq<Card>, trump: Option<Suit>): nat {
    if |cs| == 0 then 0 else CardValue(cs[0], trump) + Points(cs[1..], trump)
  }

  /** Total card points of the whole deck: one suit at 62 (the trump table)
      and three at 30 when there is a trump suit, four at 30 when there is none. */
  function DeckTotal(trump: Option<Suit>): nat {
    if trump.Some? then 62 + 3 * 30 else 4 * 30
  }

  // ---------------------------------------------------------------------
  // The deck

  /** The eight cards of one suit, in `RANKS` order. */
  function SuitRun(s: Suit): seq<Card> {
    seq(8, i requires 0 <= i < 8 => Card(Ranks[i], s))
  }

  /** `[r + s for s in suits for r in RANKS]`: suit-major, rank-minor. */
  function DeckFrom(suits: seq<Suit>): (d: seq<Card>)
    ensures |d| == 8 * |suits|
  {
    if |suits| == 0 then [] else SuitRun(suits[0]) + DeckFrom(suits[1..])
  }

  /** The deck the game deals from. */
  function Deck(): seq<Card> {
    DeckFrom(Suits)
  }

  /** Position `8 * k + i` of the deck holds rank `i` of suit `k`. */
  lemma {:induction false} DeckFromAt(suits: seq<Suit>, k: nat, i: nat)
    requires k < |suits| && i < 8
    ensures DeckFrom(suits)[8 * k + i] == Card(Ranks[i], suits[k])
  {
    if k > 0 {
      DeckFromAt(suits[1..], k - 1, i);
      assert DeckFrom(suits)[8 * k + i] == DeckFrom(suits[1..])[8 * (k - 1) + i];
    }
  }

  function RankIndex(r: Rank): (i: nat)
    ensures i < 8 && Ranks[i] == r
  {
    match r
    case Seven => 0
    case Eight => 1
    case Nine => 2
    case Jack => 3
    case Queen => 4
    case King => 5
    case Ten => 6
    case Ace => 7
  }

  function SuitIndex(s: Suit): (i: nat)
    ensures i < 4 && Suits[i] == s
  {
    match s
    case Spades => 0
    case Hearts => 1
    case Diamonds => 2
    case Clubs => 3
  }

  /** The deck holds 32 cards, no card twice, and every card. */
  lemma DeckIsComplete()
    ensures |Deck()| == 32
    ensures Distinct(Deck())
    ensures forall c: Card :: c in Deck()
  {
    var d := Deck();
    assert Distinct(Ranks) && Distinct(Suits);
    forall i, j | 0 <= i < j < 32 ensures d[i] != d[j] {
      DeckFromAt(Suits, i / 8, i % 8);
      DeckFromAt(Suits, j / 8, j % 8);
      if i / 8 == j / 8 {
        assert i % 8 != j % 8;
        assert Ranks[i % 8] != Ranks[j % 8];
      } else {
        assert Suits[i / 8] != Suits[j / 8];
      }
    }
    forall c: Card ensures c in d {
      DeckFromAt(Suits, SuitIndex(c.suit), RankIndex(c.rank));
      assert d[8 * SuitIndex(c.suit) + RankIndex(c.rank)] == c;
    }
  }

  // ---------------------------------------------------------------------
  // Points of the deck

  /** A pile is worth at most 20 a card, and a trump suit never makes it
      worth less than under the normal table alone. */
  lemma {:induction false} PointsBounds(cs: seq<Card>, trump: Option<Suit>)
    ensures Points(cs, None) <= Points(cs, trump) <= 20 * |cs|
  {
    if |cs| > 0 {
      PointsBounds(cs[1..], trump);
    }
  }

  /** The points of two piles taken together are the sum of their points. */
  lemma {:induction false} PointsAppend(a: seq<Card>, b: seq<Card>, trump: Option<Suit>)
    ensures Points(a + b, trump) == Points(a, trump) + Points(b, trump)
  {
    if |a| > 0 {
      assert (a + b)[1..] == a[1..] + b;
      PointsAppend(a[1..], b, trump);
    } else {
      assert a + b == b;
    }
  }

  /** Removing one card from a pile takes away exactly that card's value. */
  lemma PointsCut(s: seq<Card>, k: nat, trump: Option<Suit>)
    requires k < |s|
    ensures Points(s, trump) == CardValue(s[k], trump) + Points(s[..k] + s[k + 1..], trump)
  {
    assert s == s[..k] + ([s[k]] + s[k + 1..]);
    PointsAppend(s[..k], [s[k]] + s[k + 1..], trump);
    PointsAppend(s[..k], s[k + 1..], trump);
  }

  /** The points of a pile do not depend on the order of its cards. */
  lemma {:induction false} PointsPermutation(a: seq<Card>, b: seq<Card>, trump: Option<Suit>)
    requires multiset(a) == multiset(b)
    ensures Points(a, trump) == Points(b, trump)
    decreases |a|
  {
    if |a| > 0 {
      var c := a[0];
      assert c in b by {
        assert c in multiset(a);
      }
      var k := IndexOf(b, c);
      var rest := b[..k] + b[k + 1..];
      CutMatching(a, b, k);
      PointsPermutation(a[1..], rest, trump);
      PointsCut(b, k, trump);
      assert Points(a, trump) == CardValue(c, trump) + Points(a[1..], trump);
    } else {
      assert |b| == |multiset(b)| == 0;
    }
  }

  /** One suit is worth 62 under the trump table and 30 under the normal one. */
  lemma SuitRunPoints(s: Suit, trump: Option<Suit>)
    ensures Points(SuitRun(s), trump) == if trump == Some(s) then 62 else 30
  {
    var t := if trump == Some(s) then Some(Spades) else None;
    PointsSameValues(SuitRun(s), SuitRun(Spades), trump, t);
    SpadesPoints();
  }

  /** Piles whose cards are worth the same, position by position, are worth the same. */
  lemma {:induction false} PointsSameValues(a: seq<Card>, b: seq<Card>, ta: Option<Suit>, tb: Option<Suit>)
    requires |a| == |b|
    requires forall i :: 0 <= i < |a| ==> CardValue(a[i], ta) == CardValue(b[i], tb)
    ensures Points(a, ta) == Points(b, tb)
  {
    if |a| > 0 {
      PointsSameValues(a[1..], b[1..], ta, tb);
    }
  }

  /** The spades, counted out under both tables. */
  lemma SpadesPoints()
    ensures Points(SuitRun(Spades), Some(Spades)) == 62
    ensures Points(SuitRun(Spades), None) == 30
  {
    assert SuitRun(Spades) == SpadesWritten();
    SpadesTrumpPoints();
    SpadesPlainPoints();
  }

  /** The spades in `RANKS` order, written out. */
  function SpadesWritten(): seq<Card> {
    [Card(Seven, Spades), Card(Eight, Spades), Card(Nine, Spades), Card(Jack, Spades),
                   Card(Queen, Spades), Card(King, Spades), Card(Ten, Spades), Card(Ace, Spades)]
  }

  lemma SpadesTrumpPoints()
    ensures Points(SpadesWritten(), Some(Spades)) == 62
  {
  }

  lemma SpadesPlainPoints()
    ensures Points(SpadesWritten(), None) == 30
  {
  }

  /** The whole deck carries 152 card points with a trump suit and 120 without. */
  lemma DeckPoints(trump: Option<Suit>)
    ensures Points(Deck(), trump) == DeckTotal(trump)
  {
    DeckSuitPoints(trump);
    SuitRunPoints(Spades, trump);
    SuitRunPoints(Hearts, trump);
    SuitRunPoints(Diamonds, trump);
    SuitRunPoints(Clubs, trump);
    SuitTotals(trump);
  }

  /** At most one suit takes the trump table's 62; the others take 30. */
  lemma SuitTotals(trump: Option<Suit>)
    ensures (if trump == Some(Spades) then 62 else 30) + (if trump == Some(Hearts) then 62 else 30)
          + (if trump == Some(Diamonds) then 62 else 30) + (if trump == Some(Clubs) then 62 else 30)
         == DeckTotal(trump)
  {
    match trump
    case None =>
    case Some(t) =>
      match t
      case Spades =>
      case Hearts =>
      case Diamonds =>
      case Clubs =>
  }

  /** The deck's points are the sum of its four suits' points. */
  lemma DeckSuitPoints(trump: Option<Suit>)
    ensures Points(Deck(), trump)
         == Points(SuitRun(Spades), trump) + Points(SuitRun(Hearts), trump)
          + Points(SuitRun(Diamonds), trump) + Points(SuitRun(Clubs), trump)
  {
    var spades, hearts, diamonds, clubs := SuitRun(Spades), SuitRun(Hearts), SuitRun(Diamonds), SuitRun(Clubs);
    DeckSuits();
    PointsAppend(spades, hearts + (diamonds + clubs), trump);
    PointsAppend(hearts, diamonds + clubs, trump);
    PointsAppend(diamonds, clubs, trump);
  }

  /** The deck is the four suit runs, in `SUITS` order. */
  lemma DeckSuits()
    ensures Deck() == SuitRun(Spades) + (SuitRun(Hearts) + (SuitRun(Diamonds) + SuitRun(Clubs)))
  {
    assert Suits[1..] == [Hearts, Diamonds, Clubs];
    assert Suits[1..][1..] == [Diamonds, Clubs];
    assert Suits[1..][1..][1..] == [Clubs];
    assert Suits[1..][1..][1..][1..] == [];
    assert SuitRun(Clubs) + [] == SuitRun(Clubs);
  }

  // ---------------------------------------------------------------------
  // The string form `rank + suit`

  function RankText(r: Rank): string {
    match r
    case Seven => "7"
    case Eight => "8"
    case Nine => "9"
    case Jack => "J"
    case Queen => "Q"
    case King => "K"
    case Ten => "10"
    case Ace => "A"
  }

  function SuitChar(s: Suit): char {
    match s
    case Spades => '♠'
    case Hearts => '♥'
    case Diamonds => '♦'
    case Clubs => '♣'
  }

  /** The card as the game stores it, `r + s`.  Slicing it back the way the
      trick and score code does (`card[:-1]`, `card[-1]`) yields the rank text
      and the suit character, also for the two-character rank "10". */
  function CardText(c: Card): (t: string)
    ensures |t| >= 2
    ensures t[..|t| - 1] == RankText(c.rank)
    ensures t[|t| - 1] == SuitChar(c.suit)
  {
    RankText(c.rank) + [SuitChar(c.suit)]
  }

  /** Key lookup of a rank string in the value tables; `None` is a `KeyError`. */
  function ParseRank(t: string): (r: Option<Rank>)
    ensures r.Some? ==> RankText(r.value) == t
  {
    if t == "7" then Some(Seven)
    else if t == "8" then Some(Eight)
    else if t == "9" then Some(Nine)
    else if t == "J" then Some(Jack)
    else if t == "Q" then Some(Queen)
    else if t == "K" then Some(King)
    else if t == "10" then Some(Ten)
    else if t == "A" then Some(Ace)
    else None
  }

  function ParseSuit(ch: char): (r: Option<Suit>)
    ensures r.Some? ==> SuitChar(r.value) == ch
  {
    if ch == '♠' then Some(Spades)
    else if ch == '♥' then Some(Hearts)
    else if ch == '♦' then Some(Diamonds)
    else if ch == '♣' then Some(Clubs)
    else None
  }

  /** Reads a card string back as `card[:-1]`, `card[-1]`; `None` when the
      string is empty or either part is not a known rank or suit. */
  function ParseCard(t: string): (r: Option<Card>)
    ensures r.Some? ==> CardText(r.value) == t
  {
    if |t| == 0 then None
    else
      match (ParseRank(t[..|t| - 1]), ParseSuit(t[|t| - 1]))
      case (Some(rk), Some(st)) =>
        assert t == t[..|t| - 1] + [t[|t| - 1]];
        Some(Card(rk, st))
      case _ => None
  }

  /** Every card string reads back as the card it was written from. */
  lemma ParseCardText(c: Card)
    ensures ParseCard(CardText(c)) == Some(c)
  {
    var t := CardText(c);
    assert ParseRank(t[..|t| - 1]) == Some(c.rank) by {
      match c.rank
      case Seven => case Eight => case Nine => case Jack =>
      case Queen => case King => case Ten => case Ace =>
    }
    assert ParseSuit(t[|t| - 1]) == Some(c.suit) by {
      match c.suit
      case Spades => case Hearts => case Diamonds => case Clubs =>
    }
  }

  /** Two different cards never share a string. */
  lemma CardTextInjective(a: Card, b: Card)
    requires CardText(a) == CardText(b)
    ensures a == b
  {
    ParseCardText(a);
    ParseCardText(b);
  }

  /** `[r + s for s in SUITS for r in RANKS]` as strings. */
  function DeckText(): (d: seq<string>)
    ensures |d| == |Deck()|
    ensures forall i :: 0 <= i < |d| ==> ParseCard(d[i]) == Some(Deck()[i])
  {
    var deck := Deck();
    var d := seq(|deck|, i requires 0 <= i < |deck| => CardText(deck[i]));
    assert forall i :: 0 <= i < |d| ==> ParseCard(d[i]) == Some(deck[i]) by {
      forall i | 0 <= i < |d| ensures ParseCard(d[i]) == Some(deck[i]) {
        ParseCardText(deck[i]);
      }
    }
    d
  }

  /** The 32 deck strings are pairwise different. */
  lemma DeckTextDistinct()
    ensures |DeckText()| == 32
    ensures Distinct(DeckText())
  {
    DeckIsComplete();
    var d := DeckText();
    forall i, j | 0 <= i < j < |d| ensures d[i] != d[j] {
      assert ParseCard(d[i]) == Some(Deck()[i]) && ParseCard(d[j]) == Some(Deck()[j]);
    }
  }
}
