/** Bidding (belote.py lines 56-93): the human's bid, the three bots' bids and
    the choice of the contract from the whole bid history. */
module Bidding {
  import opened Results
  import opened Cards
  import opened Game

  // ---------------------------------------------------------------------
  // Bot bids

  /** What the random draws of `bots_make_bids` decided for one bot: pass, or
      raise to `points` in `suit`. */
  datatype BotChoice = BotPass | BotRaise(points: int, suit: Suit)

  /** The error a bid round can raise: a bot decided to raise but
      `random.choice(range(last + 10, 170, 10))` had nothing to choose from. */
  datatype BidFault = NoRaiseLeft(player: Player)

  /** The choices are ones the random draws can produce: while the running
      highest bot bid `last` is below 160, each raise is a multiple of 10 in
      `last + 10 .. 160`. */
  predicate Drawable(choices: seq<BotChoice>, last: int) {
    forall k :: 0 <= k < |choices| && choices[k].BotRaise? && RunningLast(choices[..k], last) < 160 ==>
      choices[k].points % 10 == 0 && RunningLast(choices[..k], last) < choices[k].points <= 160
  }

  /** `last` after one bot's choice: a raise sets it, a pass keeps it. */
  function RaiseLevel(c: BotChoice, last: int): int {
    if c.BotRaise? then c.points else last
  }

  /** The value of `last` after the bots in `choices` have acted. */
  function RunningLast(choices: seq<BotChoice>, last: int): int {
    if |choices| == 0 then last
    else RaiseLevel(choices[|choices| - 1], RunningLast(choices[..|choices| - 1], last))
  }

  /** The history entry a bot's choice produces. */
  function BotEntry(p: Player, c: BotChoice): BidEntry {
    match c
    case BotPass => BidEntry(p, Pass)
    case BotRaise(pts, s) => BidEntry(p, Offer(pts, Some(s)))
  }

  /** A bot at position `k` raises after some bot (or the starting `last`)
      already reached the 160 ceiling, which leaves it an empty range. */
  predicate RaisesPastCeiling(choices: seq<BotChoice>, last: int, k: int) {
    0 <= k < |choices| && choices[k].BotRaise? &&
    (last >= 160 || exists i :: 0 <= i < k && choices[i].BotRaise? && choices[i].points >= 160)
  }

  /** The entries of the bots after the first, followed by the first bot's
      entry in front, are the entries of all the bots. */
  lemma EntriesPrepend(user: Player, n: nat, choices: seq<BotChoice>, tail: seq<BidEntry>)
    requires |choices| > 0 && |tail| == |choices| - 1
    requires forall j :: 0 <= j < |tail| ==> tail[j] == BotEntry(After(user, n + 1 + j + 1), choices[1..][j])
    ensures forall j :: 0 <= j < |choices| ==>
      ([BotEntry(After(user, n + 1), choices[0])] + tail)[j] == BotEntry(After(user, n + j + 1), choices[j])
  {
    var r := [BotEntry(After(user, n + 1), choices[0])] + tail;
    forall j | 1 <= j < |choices| ensures r[j] == BotEntry(After(user, n + j + 1), choices[j]) {
      assert r[j] == tail[j - 1] && choices[1..][j - 1] == choices[j];
      assert n + 1 + (j - 1) + 1 == n + j + 1;
    }
  }

  /** The bots' entries, bot `n + j + 1` seats after `user` acting on `choices[j]`,
      as written: a raise from an empty range fails. */
  function BotBids(user: Player, n: nat, choices: seq<BotChoice>, last: int): (r: Result<seq<BidEntry>, BidFault>)
    requires Drawable(choices, last)
    ensures r.Err? <==> exists k :: RaisesPastCeiling(choices, last, k)
    ensures r.Ok? ==> |r.value| == |choices|
    ensures r.Ok? ==> forall j :: 0 <= j < |choices| ==> r.value[j] == BotEntry(After(user, n + j + 1), choices[j])
    decreases |choices|
  {
    if |choices| == 0 then Ok([])
    else
      var p := After(user, n + 1);
      var rest := choices[1..];
      DrawableShift(choices, last);
      match choices[0]
      case BotPass =>
        RaisesPastCeilingShift(choices, last);
        var tail :- BotBids(user, n + 1, rest, last);
        EntriesPrepend(user, n, choices, tail);
        Ok([BidEntry(p, Pass)] + tail)
      case BotRaise(pts, s) =>
        if last >= 160 then
          assert RaisesPastCeiling(choices, last, 0);
          Err(NoRaiseLeft(p))
        else
          RaisesPastCeilingShift(choices, last);
          var tail :- BotBids(user, n + 1, rest, pts);
          EntriesPrepend(user, n, choices, tail);
          Ok([BidEntry(p, Offer(pts, Some(s)))] + tail)
  }

  lemma {:induction false} RunningLastShift(choices: seq<BotChoice>, last: int, k: nat)
    requires k < |choices|
    ensures RunningLast(choices[1..][..k], RaiseLevel(choices[0], last))
         == RunningLast(choices[..k + 1], last)
  {
    var start := RaiseLevel(choices[0], last);
    if k == 0 {
      assert choices[..1] == [choices[0]];
      assert choices[..1][..0] == [];
    } else {
      RunningLastShift(choices, last, k - 1);
      assert choices[1..][..k][..k - 1] == choices[1..][..k - 1];
      assert choices[..k + 1][..k] == choices[..k];
    }
  }

  /** Once the first bot has acted without failing, a later bot runs out of
      range in the whole sequence exactly when it does in the rest, counted
      from the `last` the first bot leaves behind. */
  lemma RaisesPastCeilingShift(choices: seq<BotChoice>, last: int)
    requires |choices| > 0
    requires choices[0].BotRaise? ==> last < 160
    ensures (exists k :: RaisesPastCeiling(choices, last, k)) <==>
            (exists k :: RaisesPastCeiling(choices[1..], RaiseLevel(choices[0], last), k))
  {
    var rest := choices[1..];
    var next := RaiseLevel(choices[0], last);
    if k :| RaisesPastCeiling(choices, last, k) {
      if last >= 160 {
        assert RaisesPastCeiling(rest, next, k - 1);
      } else {
        var i :| 0 <= i < k && choices[i].BotRaise? && choices[i].points >= 160;
        if i == 0 {
          assert RaisesPastCeiling(rest, next, k - 1);
        } else {
          assert rest[i - 1] == choices[i];
          assert RaisesPastCeiling(rest, next, k - 1);
        }
      }
    }
    if k :| RaisesPastCeiling(rest, next, k) {
      if next >= 160 {
        assert RaisesPastCeiling(choices, last, k + 1);
      } else {
        var i :| 0 <= i < k && rest[i].BotRaise? && rest[i].points >= 160;
        assert choices[i + 1] == rest[i];
        assert RaisesPastCeiling(choices, last, k + 1);
      }
    }
  }

  // ---------------------------------------------------------------------
  // Choosing the contract

  /** No entry of the history is a `(points, suit)` tuple. */
  predicate NoOffer(bids: seq<BidEntry>) {
    forall j :: 0 <= j < |bids| ==> bids[j].bid == Pass
  }

  /** Entry `k` is the first offer carrying the highest points of the history. */
  predicate IsFirstMax(bids: seq<BidEntry>, k: int) {
    && 0 <= k < |bids|
    && bids[k].bid.Offer?
    && (forall j :: 0 <= j < |bids| && bids[j].bid.Offer? ==> bids[j].bid.points <= bids[k].bid.points)
    && (forall j :: 0 <= j < k && bids[j].bid.Offer? ==> bids[j].bid.points < bids[k].bid.points)
  }

  /** At most one entry is the first highest offer. */
  lemma FirstMaxUnique(bids: seq<BidEntry>, i: int, j: int)
    requires IsFirstMax(bids, i) && IsFirstMax(bids, j)
    ensures i == j
  {
  }

  /** `max(valid, key=lambda x: x[0])` over the offers, as an index into the
      history: scanning left to right, a later offer replaces the best only
      with strictly more points. */
  function MaxOffer(bids: seq<BidEntry>): (r: Option<nat>)
    ensures r.None? <==> NoOffer(bids)
    ensures r.Some? ==> IsFirstMax(bids, r.value)
  {
    if |bids| == 0 then None
    else
      var front := bids[..|bids| - 1];
      var best := MaxOffer(front);
      var last := bids[|bids| - 1];
      assert forall j :: 0 <= j < |front| ==> front[j] == bids[j];
      if last.bid.Offer? && (best.None? || last.bid.points > front[best.value].bid.points) then
        Some(|bids| - 1)
      else
        best
  }

  /** `next(b['player'] for b in bids if b['bid'] == target)`: the first entry
      whose payload equals `target`. */
  function FirstEntryWith(bids: seq<BidEntry>, target: Bid): (k: nat)
    requires exists j :: 0 <= j < |bids| && bids[j].bid == target
    ensures k < |bids| && bids[k].bid == target
    ensures forall j :: 0 <= j < k ==> bids[j].bid != target
  {
    if bids[0].bid == target then 0
    else
      var j :| 0 <= j < |bids| && bids[j].bid == target;
      assert bids[1..][j - 1] == bids[j];
      1 + FirstEntryWith(bids[1..], target)
  }

  /** The contract made by entry `k`: its bidder, points and suit, neither
      coinched nor surcoinched. */
  function ContractOf(e: BidEntry): (c: Contract)
    requires e.bid.Offer?
    ensures BidEntry(c.player, Offer(c.points, c.suit)) == e
    ensures !c.coinched && !c.surcoinched
  {
    Contract(e.player, e.bid.points, e.bid.suit, false, false)
  }

  /** The contract the history yields: none when nobody made an offer,
      otherwise the first offer with the highest points, credited to its bidder. */
  function SelectContract(bids: seq<BidEntry>): (r: Option<Contract>)
    ensures r.None? <==> NoOffer(bids)
    ensures r.Some? ==> exists k :: IsFirstMax(bids, k) && r.value == ContractOf(bids[k])
  {
    match MaxOffer(bids)
    case None => None
    case Some(m) =>
      var best := bids[m].bid;
      var w := FirstEntryWith(bids, best);
      assert w == m;
      Some(Contract(bids[w].player, best.points, best.suit, false, false))
  }

  // ---------------------------------------------------------------------
  // A bidding round, as written

  /** Where the parts of a bidding round sit once appended to the history:
      the history first, then the human's entry, then the bots' entries. */
  lemma RoundBidsAt(history: seq<BidEntry>, entry: BidEntry, bots: seq<BidEntry>)
    ensures |history + [entry] + bots| == |history| + 1 + |bots|
    ensures (history + [entry] + bots)[..|history|] == history && (history + [entry] + bots)[|history|] == entry
    ensures forall j :: 0 <= j < |bots| ==> (history + [entry] + bots)[|history| + 1 + j] == bots[j]
  {
  }

  /** The end of a bidding round over `bids`: the history is replaced, the
      contract is selected from it and becomes the trump when there is one. */
  function CloseRound(g: GameState, bids: seq<BidEntry>): (r: (GameState, Option<Contract>))
    ensures r.0.bids == bids && r.1 == r.0.contract
    ensures r.1.None? <==> NoOffer(bids)
    ensures r.1.Some? ==> exists k :: IsFirstMax(bids, k) && r.1.value == ContractOf(bids[k])
    ensures r.0.trump == if r.1.Some? then r.1.value.suit else g.trump
    ensures r.0 == g.(bids := bids, contract := r.1, trump := r.0.trump)
  {
    var contract := SelectContract(bids);
    var trump := if contract.Some? then contract.value.suit else g.trump;
    (g.(bids := bids, contract := contract, trump := trump), contract)
  }

  /** `process_user_bid(pts, suit)`: records the human's `(pts, suit)` tuple
      (a pass arrives as `(0, None)`), lets the three following seats bid with
      `choices`, then sets the contract and, when there is one, the trump. */
  function ProcessUserBid(g: GameState, pts: int, suit: Option<Suit>, choices: seq<BotChoice>)
    : (r: Result<(GameState, Option<Contract>), BidFault>)
    requires |choices| == 3 && Drawable(choices, 0)
    ensures r.Err? <==> exists k :: RaisesPastCeiling(choices, 0, k)
    ensures r.Ok? ==> |r.value.0.bids| == |g.bids| + 4 && r.value.0.bids[..|g.bids|] == g.bids
    ensures r.Ok? ==> r.value.0.bids[|g.bids|] == BidEntry(Players[g.currentPlayer], Offer(pts, suit))
    ensures r.Ok? ==> forall j :: 0 <= j < 3 ==>
      r.value.0.bids[|g.bids| + 1 + j] == BotEntry(After(Players[g.currentPlayer], j + 1), choices[j])
    ensures r.Ok? ==> r.value.1 == r.value.0.contract
    ensures r.Ok? ==> (r.value.1.None? <==> NoOffer(r.value.0.bids))
    ensures r.Ok? && r.value.1.Some? ==>
      exists k :: IsFirstMax(r.value.0.bids, k) && r.value.1.value == ContractOf(r.value.0.bids[k])
    ensures r.Ok? ==> r.value.0.trump == if r.value.1.Some? then r.value.1.value.suit else g.trump
    ensures r.Ok? ==> r.value.0 == g.(bids := r.value.0.bids, contract := r.value.1, trump := r.value.0.trump)
  {
    var user := Players[g.currentPlayer];
    var bots :- BotBids(user, 0, choices, 0);
    var bids := g.bids + [BidEntry(user, Offer(pts, suit))] + bots;
    RoundBidsAt(g.bids, BidEntry(user, Offer(pts, suit)), bots);
    assert forall j :: 0 <= j < 3 ==> bids[|g.bids| + 1 + j] == BotEntry(After(user, j + 1), choices[j]) by {
      forall j | 0 <= j < 3 ensures bids[|g.bids| + 1 + j] == BotEntry(After(user, j + 1), choices[j]) {
        assert bids[|g.bids| + 1 + j] == bots[j];
      }
    }
    Ok(CloseRound(g, bids))
  }

  /** Finding: the human's pass is stored as the tuple `(0, None)`, an offer,
      so a round always ends with a contract; with an empty history and three
      passing bots the human becomes the bidder of a 0-point contract with no
      trump, and the "everyone passed" case of the caller never arises. */
  lemma PassStillMakesContract(g: GameState)
    requires NoOffer(g.bids)
    ensures ProcessUserBid(g, 0, None, [BotPass, BotPass, BotPass]).Ok?
    ensures ProcessUserBid(g, 0, None, [BotPass, BotPass, BotPass]).value.1
         == Some(Contract(Players[g.currentPlayer], 0, None, false, false))
  {
    var choices := [BotPass, BotPass, BotPass];
    var user := Players[g.currentPlayer];
    assert !RaisesPastCeiling(choices, 0, 0) && !RaisesPastCeiling(choices, 0, 1) && !RaisesPastCeiling(choices, 0, 2);
    var bots := BotBids(user, 0, choices, 0).value;
    var bids := g.bids + [BidEntry(user, Offer(0, None))] + bots;
    assert bids[|g.bids| + 1].bid == Pass && bids[|g.bids| + 2].bid == Pass && bids[|g.bids| + 3].bid == Pass;
    assert IsFirstMax(bids, |g.bids|);
    var r := ProcessUserBid(g, 0, None, choices);
    assert r.value.0.bids == bids;
    var k :| IsFirstMax(bids, k) && r.value.1.value == ContractOf(bids[k]);
    FirstMaxUnique(bids, k, |g.bids|);
  }

  /** Finding: once a bot has bid 160, a later bot that decides to bid draws
      from an empty range and the round fails. */
  lemma RaiseAfterCeilingFails(g: GameState)
    ensures ProcessUserBid(g, 80, Some(Hearts), [BotRaise(160, Spades), BotRaise(160, Clubs), BotPass])
         == Err(NoRaiseLeft(After(Players[g.currentPlayer], 2)))
  {
    var choices := [BotRaise(160, Spades), BotRaise(160, Clubs), BotPass];
    assert choices[..0] == [] && choices[..1] == [choices[0]];
    assert choices[..2] == choices[..1] + [choices[1]];
    assert choices[..1][..0] == [];
    assert choices[..2][..1] == choices[..1];
    assert RunningLast(choices[..1], 0) == 160;
    assert RunningLast(choices[..2], 0) == 160;
    assert choices[1..] == [BotRaise(160, Clubs), BotPass];
  }

  /** The draws of the bots after the first are drawable from the `last` the
      first bot leaves behind. */
  lemma DrawableShift(choices: seq<BotChoice>, last: int)
    requires |choices| > 0 && Drawable(choices, last)
    ensures Drawable(choices[1..], RaiseLevel(choices[0], last))
  {
    var rest := choices[1..];
    forall k | 0 <= k < |rest| ensures RunningLast(rest[..k], RaiseLevel(choices[0], last)) == RunningLast(choices[..k + 1], last) {
      RunningLastShift(choices, last, k);
    }
    assert forall k :: 0 <= k < |rest| ==> rest[k] == choices[k + 1];
  }

  // ---------------------------------------------------------------------
  // A bidding round, corrected

  /** `last` after one bot's choice when a raise past the ceiling is a pass. */
  function CappedLevel(c: BotChoice, last: int): int {
    if c.BotRaise? && last < 160 then c.points else last
  }

  /** Position `k + 1` of `choices` raises past the ceiling exactly when
      position `k` of the rest does, counted from the first bot's `last`. */
  lemma RaisesPastCeilingStep(choices: seq<BotChoice>, last: int, k: nat)
    requires k + 1 < |choices|
    ensures RaisesPastCeiling(choices, last, k + 1) <==>
            RaisesPastCeiling(choices[1..], CappedLevel(choices[0], last), k)
  {
    var rest := choices[1..];
    var next := CappedLevel(choices[0], last);
    if RaisesPastCeiling(choices, last, k + 1) && last < 160 {
      var i :| 0 <= i < k + 1 && choices[i].BotRaise? && choices[i].points >= 160;
      if i > 0 {
        assert rest[i - 1] == choices[i];
      }
    }
    if RaisesPastCeiling(rest, next, k) && next < 160 {
      var i :| 0 <= i < k && rest[i].BotRaise? && rest[i].points >= 160;
      assert choices[i + 1] == rest[i];
    }
  }

  /** The bots' entries with the evidently intended reading of an empty range:
      a bot that cannot outbid 160 passes.  Never fails; every bot offer is a
      multiple of 10 above the starting `last` and at most 160, and each offer
      beats the bot offers before it. */
  function BotBidsCapped(user: Player, n: nat, choices: seq<BotChoice>, last: int): (r: seq<BidEntry>)
    requires last < 160 ==> Drawable(choices, last)
    ensures |r| == |choices|
    ensures forall j :: 0 <= j < |choices| ==>
      r[j] == if RaisesPastCeiling(choices, last, j) then BidEntry(After(user, n + j + 1), Pass)
              else BotEntry(After(user, n + j + 1), choices[j])
    ensures forall j :: 0 <= j < |r| && r[j].bid.Offer? ==>
      r[j].bid.points % 10 == 0 && last < r[j].bid.points <= 160
    ensures forall i, j :: 0 <= i < j < |r| && r[i].bid.Offer? && r[j].bid.Offer? ==>
      r[i].bid.points < r[j].bid.points
    decreases |choices|
  {
    if |choices| == 0 then []
    else
      var p := After(user, n + 1);
      var rest := choices[1..];
      var next := CappedLevel(choices[0], last);
      CappedShift(choices, last);
      var entry := if choices[0].BotRaise? && last >= 160 then BidEntry(p, Pass) else BotEntry(p, choices[0]);
      var tail := BotBidsCapped(user, n + 1, rest, next);
      var r := [entry] + tail;
      assert forall j :: 1 <= j < |choices| ==> r[j] == tail[j - 1];
      assert entry.bid.Offer? ==> entry.bid.points == next && last < next;
      assert last <= next;
      r
  }

  /** What the capped bot round hands from its first bot to the rest: the rest
      is drawable, the first bot's raise (if it is an offer) is in range, and
      the ceiling test shifts by one position. */
  lemma CappedShift(choices: seq<BotChoice>, last: int)
    requires |choices| > 0
    requires last < 160 ==> Drawable(choices, last)
    ensures CappedLevel(choices[0], last) < 160 ==> Drawable(choices[1..], CappedLevel(choices[0], last))
    ensures choices[0].BotRaise? && last < 160 ==>
      choices[0].points % 10 == 0 && last < choices[0].points <= 160
    ensures !RaisesPastCeiling(choices, last, 0) <==> !(choices[0].BotRaise? && last >= 160)
    ensures forall j :: 1 <= j < |choices| ==>
      (RaisesPastCeiling(choices, last, j) <==> RaisesPastCeiling(choices[1..], CappedLevel(choices[0], last), j - 1))
  {
    if last < 160 {
      DrawableShift(choices, last);
      assert RunningLast(choices[..0], last) == last;
    }
    forall j | 1 <= j < |choices|
      ensures RaisesPastCeiling(choices, last, j) <==> RaisesPastCeiling(choices[1..], CappedLevel(choices[0], last), j - 1)
    {
      RaisesPastCeilingStep(choices, last, j - 1);
    }
  }

  /** The bidding round as evidently intended: the human's action is recorded
      as given, so a pass is `'PASS'`, and a bot that cannot outbid 160 passes.
      The round ends without a contract exactly when the history held no offer,
      the human passed and every bot passed. */
  function ProcessUserAction(g: GameState, action: Bid, choices: seq<BotChoice>): (r: (GameState, Option<Contract>))
    requires |choices| == 3 && Drawable(choices, 0)
    ensures |r.0.bids| == |g.bids| + 4 && r.0.bids[..|g.bids|] == g.bids
    ensures r.0.bids[|g.bids|] == BidEntry(Players[g.currentPlayer], action)
    ensures r.1 == r.0.contract
    ensures r.1.None? <==> NoOffer(g.bids) && action == Pass && forall j :: 0 <= j < 3 ==> choices[j] == BotPass
    ensures r.1.Some? ==> exists k :: IsFirstMax(r.0.bids, k) && r.1.value == ContractOf(r.0.bids[k])
    ensures r.0.trump == if r.1.Some? then r.1.value.suit else g.trump
    ensures r.0 == g.(bids := r.0.bids, contract := r.1, trump := r.0.trump)
  {
    var user := Players[g.currentPlayer];
    var bots := BotBidsCapped(user, 0, choices, 0);
    var bids := g.bids + [BidEntry(user, action)] + bots;
    NoOfferAppend(g.bids, BidEntry(user, action), bots);
    AllBotsPass(user, choices);
    var contract := SelectContract(bids);
    var trump := if contract.Some? then contract.value.suit else g.trump;
    (g.(bids := bids, contract := contract, trump := trump), contract)
  }

  /** A history extended by one entry and a tail keeps its front and has no
      offer exactly when none of the three parts has one. */
  lemma NoOfferAppend(front: seq<BidEntry>, e: BidEntry, tail: seq<BidEntry>)
    ensures (front + [e] + tail)[..|front|] == front
    ensures NoOffer(front + [e] + tail) <==> NoOffer(front) && e.bid == Pass && NoOffer(tail)
  {
    var all := front + [e] + tail;
    assert all[..|front|] == front;
    assert forall j :: 0 <= j < |front| ==> all[j] == front[j];
    assert forall j :: 0 <= j < |tail| ==> all[|front| + 1 + j] == tail[j];
    assert all[|front|] == e;
  }

  /** The capped bots all pass exactly when every choice is a pass. */
  lemma AllBotsPass(user: Player, choices: seq<BotChoice>)
    requires Drawable(choices, 0)
    ensures NoOffer(BotBidsCapped(user, 0, choices, 0)) <==> forall j :: 0 <= j < |choices| ==> choices[j] == BotPass
  {
    var bots := BotBidsCapped(user, 0, choices, 0);
    if k :| 0 <= k < |choices| && choices[k].BotRaise? {
      var first := FirstRaise(choices, k);
      assert !RaisesPastCeiling(choices, 0, first);
      assert bots[first].bid.Offer?;
    }
  }

  /** The first raise at or before a known raise `k`. */
  function FirstRaise(choices: seq<BotChoice>, k: nat): (f: nat)
    requires k < |choices| && choices[k].BotRaise?
    ensures f <= k && choices[f].BotRaise?
    ensures forall i :: 0 <= i < f ==> choices[i] == BotPass
  {
    if forall i :: 0 <= i < k ==> choices[i] == BotPass then k
    else
      var i :| 0 <= i < k && choices[i] != BotPass;
      FirstRaise(choices, i)
  }

  /** When no bot raises past the ceiling, the written round succeeds and the
      corrected round, given the human's bid as an offer, yields the same game
      and contract: the two differ only on the two findings' inputs. */
  lemma CorrectedAgreesOnOffers(g: GameState, pts: int, suit: Option<Suit>, choices: seq<BotChoice>)
    requires |choices| == 3 && Drawable(choices, 0)
    requires forall k :: !RaisesPastCeiling(choices, 0, k)
    ensures ProcessUserBid(g, pts, suit, choices).Ok?
    ensures ProcessUserAction(g, Offer(pts, suit), choices) == ProcessUserBid(g, pts, suit, choices).value
  {
    var user := Players[g.currentPlayer];
    var written := BotBids(user, 0, choices, 0);
    var capped := BotBidsCapped(user, 0, choices, 0);
    assert written.Ok?;
    assert written.value == capped;
  }
}
