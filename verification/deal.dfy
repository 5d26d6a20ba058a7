/** `BeloteGame.start_game` (belote.py lines 48-54): build the deck, shuffle it
    and give each seat, in seating order, the next eight cards. */
module Deal {
  import opened Seqs
  import opened Cards
  import opened Game

  /** The outcome of `random.shuffle(deck)`: any ordering of the 32 cards. */
  predicate IsShuffle(s: seq<Card>) {
    multiset(s) == multiset(Deck())
  }

  /** A shuffled deck has 32 cards, none twice. */
  lemma ShuffleFacts(s: seq<Card>)
    requires IsShuffle(s)
    ensures |s| == 32 && Distinct(s)
  {
    DeckIsComplete();
    assert |s| == |multiset(s)| == |multiset(Deck())| == |Deck()|;
    PermutationKeepsDistinct(Deck(), s);
  }

  /** `hands[p] = deck[i*8:(i+1)*8]` for each seat `i`, in seating order. */
  function DealHands(hands: map<Player, seq<Card>>, s: seq<Card>): (r: map<Player, seq<Card>>)
    requires |s| == 32
    ensures Seated(r)
    ensures forall p :: p in r ==> r[p] == s[8 * SeatOf(p)..8 * SeatOf(p) + 8]
    ensures forall i :: 0 <= i < 4 ==> Players[i] in r && r[Players[i]] == s[8 * i..8 * i + 8]
    ensures forall p :: p in r ==> |r[p]| == 8
  {
    var r := hands[South := s[0..8]][West := s[8..16]][North := s[16..24]][East := s[24..32]];
    assert forall p :: p in r ==> r[p] == s[8 * SeatOf(p)..8 * SeatOf(p) + 8] by {
      forall p | p in r ensures r[p] == s[8 * SeatOf(p)..8 * SeatOf(p) + 8] {
        if p == South {} else if p == West {} else if p == North {} else {}
      }
    }
    assert forall i :: 0 <= i < 4 ==> Players[i] in r && r[Players[i]] == s[8 * i..8 * i + 8] by {
      forall i | 0 <= i < 4 ensures Players[i] in r && r[Players[i]] == s[8 * i..8 * i + 8] {
        if i == 0 {} else if i == 1 {} else if i == 2 {} else {}
      }
    }
    r
  }

  /** The four dealt hands are pairwise disjoint and together make up the deck. */
  lemma DealHandsPartition(hands: map<Player, seq<Card>>, s: seq<Card>)
    requires IsShuffle(s)
    ensures |s| == 32
    ensures forall p, q :: p in DealHands(hands, s) && q in DealHands(hands, s) && p != q ==>
      multiset(DealHands(hands, s)[p]) !! multiset(DealHands(hands, s)[q])
    ensures Holdings(DealHands(hands, s)) == multiset(Deck())
  {
    ShuffleFacts(s);
    var r := DealHands(hands, s);
    forall p, q | p in r && q in r && p != q ensures multiset(r[p]) !! multiset(r[q]) {
      HandsDisjoint(s, r, p, q);
    }
    DealtHoldings(s, r);
  }

  /** Two seats' eight-card slices of a deck without repeats share no card. */
  lemma HandsDisjoint(s: seq<Card>, r: map<Player, seq<Card>>, p: Player, q: Player)
    requires |s| == 32 && Distinct(s)
    requires forall x :: x in r ==> r[x] == s[8 * SeatOf(x)..8 * SeatOf(x) + 8]
    requires p in r && q in r && p != q
    ensures multiset(r[p]) !! multiset(r[q])
  {
    var i: int, j: int := SeatOf(p), SeatOf(q);
    assert r[p] == s[8 * i..8 * i + 8] && r[q] == s[8 * j..8 * j + 8];
    if i < j {
      DistinctSlicesDisjoint(s, 8 * i, 8 * i + 8, 8 * j, 8 * j + 8);
    } else {
      DistinctSlicesDisjoint(s, 8 * j, 8 * j + 8, 8 * i, 8 * i + 8);
    }
  }

  /** The four consecutive slices together hold the whole shuffled deck. */
  lemma DealtHoldings(s: seq<Card>, r: map<Player, seq<Card>>)
    requires IsShuffle(s) && |s| == 32
    requires forall i :: 0 <= i < 4 ==> Players[i] in r && r[Players[i]] == s[8 * i..8 * i + 8]
    ensures Holdings(r) == multiset(Deck())
  {
    assert Pile(r, South) == s[0..8] by { assert Players[0] == South; }
    assert Pile(r, West) == s[8..16] by { assert Players[1] == West; }
    assert Pile(r, North) == s[16..24] by { assert Players[2] == North; }
    assert Pile(r, East) == s[24..32] by { assert Players[3] == East; }
    assert s == s[0..8] + s[8..16] + s[16..24] + s[24..32];
  }

  /** Deals `shuffled` (the shuffle's outcome) and gives SOUTH the first turn. */
  function StartGame(g: GameState, shuffled: seq<Card>): (r: GameState)
    requires IsShuffle(shuffled)
    ensures Seated(r.hands)
    ensures |shuffled| == 32
    ensures forall p :: p in r.hands ==> r.hands[p] == shuffled[8 * SeatOf(p)..8 * SeatOf(p) + 8]
    ensures forall p, q :: p in r.hands && q in r.hands && p != q ==> multiset(r.hands[p]) !! multiset(r.hands[q])
    ensures Holdings(r.hands) == multiset(Deck())
    ensures r.currentPlayer == 0
    ensures r == g.(hands := r.hands, currentPlayer := 0)
  {
    DealHandsPartition(g.hands, shuffled);
    var hands := DealHands(g.hands, shuffled);
    var r := g.(hands := hands, currentPlayer := 0);
    assert r.hands == hands;
    r
  }
}
