# Belote coinchée game core, modelled in Dafny

This project models `BeloteGame`, the game logic of a chat bot that plays
simplified belote coinchée. One human sits SOUTH and three bots fill the
other seats. The model covers these parts of the game:

- **Cards.** The 32-card deck and the two point tables (trump and normal).
  Cards are stored as strings `rank + suit`, and the model includes that text
  form.
- **Deal.** A shuffled deck is dealt eight cards to each seat.
- **Bidding.** The human bids, then the bots bid, and a contract and trump
  suit are chosen from the history.
- **Play.** The human plays a card, then the three bots each play one, and
  the trick goes to its winner.
- **Scoring.** Each team (NORTH/SOUTH and WEST/EAST) scores the card points
  of the tricks it has won.
- **Snapshot.** The game is stored per room as a record and rebuilt from it.

All randomness is a parameter of the model:

- `random.shuffle` becomes a given permutation of the deck.
- `random.random` and `random.choice` in the bot bids become a given
  sequence of choices. The model constrains it to values those draws can
  produce.
- `random.choice` in the bot plays becomes a given card for each bot.

Every Python exception the code can raise on these paths, for the inputs
the model represents, appears as an error value of a `Result`. Examples are
a `KeyError` on a missing hand and an `IndexError` from `random.choice` on
an empty range or hand. Cards outside the deck are not represented (see
"Left out").

Modules, in dependency order:

- `Results` (results.dfy): `Option` and `Result`.
- `Seqs` (seqs.dfy): `list.remove` and multiset facts about sequences.
- `Cards` (cards.dfy): deck, values, points and the text form.
- `Game` (game.dfy): seats, bids, contract, scores and the game state.
- `Deal` (deal.dfy): `start_game`.
- `Bidding` (bidding.dfy): `bots_make_bids` and `process_user_bid`, plus
  corrected versions of both.
- `Tricks` (tricks.dfy): `_determine_trick_winner`.
- `Play` (play.dfy): `play_card` and `_choose_bot_card`.
- `Scoring` (scoring.dfy): `compute_scores`.
- `Conservation` (conservation.dfy): from the deal on, every card of the deck
  stays in play exactly once.
- `Snapshot` (snapshot.dfy): `to_dict` and `from_dict`.

## Model

| member | source | states |
|---|---|---|
| Seqs.IndexOf | belote.py:98 | The position `list.remove` deletes: it holds the value, and no earlier position does. |
| Seqs.Remove | belote.py:98 | `list.remove(x)` deletes the first occurrence of `x` and nothing else, so the list gets one shorter. |
| Seqs.RemoveMultiset | belote.py:98 | Removing a card takes exactly one copy of it out of the pile's multiset. |
| Cards.DeckIsComplete | belote.py:7-8 | The deck built from `SUITS` and `RANKS` has 32 cards, no duplicates, and contains every rank/suit pair. |
| Cards.TrumpValue | belote.py:4 | Under the trump table no rank is worth less than under the normal table. Only the jack and the nine are worth more, and the jack is worth most, 20. |
| Cards.NormalValue | belote.py:5 | Under the normal table the ace is worth most, 11, and exactly the seven, eight and nine are worth nothing. |
| Cards.CardValue | belote.py:136 | A card is worth at least its normal value and at most its trump value. A card not of the trump suit, including every card when there is no trump, is worth its normal value. |
| Cards.PointsBounds | belote.py:135-142 | A pile is worth at most 20 points a card, and a trump suit never makes it worth less than it is with no trump. |
| Cards.DeckFrom | belote.py:50 | The comprehension over the suits yields eight cards per suit. |
| Cards.DeckFromAt | belote.py:50 | Position `8*i + j` of the deck is rank `j` of suit `i`, the order of the nested comprehension. |
| Cards.PointsAppend | belote.py:135-142 | Summing the card values of two piles laid end to end gives the sum of the two piles' points. |
| Cards.PointsPermutation | belote.py:135-142 | Two piles holding the same cards, in any order, are worth the same points. |
| Cards.SuitRunPoints | belote.py:4-5 | One suit is worth 62 points under the trump table and 30 under the normal table. |
| Cards.DeckPoints | belote.py:4-8 | The whole deck is worth 152 points when a suit is trump and 120 when there is none. |
| Cards.CardText | belote.py:50 | A card string has at least two characters. `card[:-1]` is the rank text and `card[-1]` the suit symbol, including for the rank "10". |
| Cards.ParseCard | belote.py:120-124 | Reading a string with `card[:-1]` and `card[-1]` yields only cards whose text is that string. |
| Cards.ParseCardText | belote.py:120-124 | Every card string reads back as the card it was written from. |
| Cards.CardTextInjective | belote.py:50 | Two different cards never share a string. |
| Cards.DeckText | belote.py:50 | The deck in string form reads back position by position as the deck of cards. |
| Cards.DeckTextDistinct | belote.py:50 | The 32 card strings of the deck are pairwise different. |
| Game.SeatOf | belote.py:13 | `players.index(p)` is the seat of `p` in the order SOUTH, WEST, NORTH, EAST. |
| Game.TrickCardsAppend | belote.py:109 | `[c for _, c in trick]` over two tricks laid end to end is the first trick's cards followed by the second's, so appending a play appends its card. |
| Game.NewGame | belote.py:11-21 | A new game has a pile for every seat, no hands, no card in play, SOUTH to act, no contract or trump, zero scores and empty histories. |
| Deal.ShuffleFacts | belote.py:50-51 | Any shuffle of the deck has 32 cards, none repeated. |
| Deal.DealHands | belote.py:52-53 | Seat `i` receives cards `8*i` to `8*i + 7` of the shuffled deck, and every seat has an entry. |
| Deal.DealHandsPartition | belote.py:50-53 | The four dealt hands are pairwise disjoint, and together they are exactly the deck. |
| Deal.StartGame | belote.py:48-54 | After the deal each seat holds the eight-card slice of the shuffled deck at its place in seating order, no card is in two hands, all hands together are the deck, SOUTH acts, and nothing else changes. |
| Bidding.BotBids | belote.py:56-69 | The bot round fails exactly when a bot decides to bid once `last` has reached 160. Otherwise bot `j` (the `j+1`-th seat after the bidder) adds a PASS or its `(points, suit)` entry. |
| Bidding.RaisesPastCeilingShift | belote.py:60-68 | If the first bot has acted without failing, a later bot runs out of range exactly when it would in the rest of the round, started from the `last` the first bot leaves. |
| Bidding.MaxOffer | belote.py:77-82 | `max(valid, key=points)` is absent exactly when there is no offer. Otherwise it is the first offer with the highest points. |
| Bidding.FirstMaxUnique | belote.py:82 | Only one entry is the first highest offer. |
| Bidding.FirstEntryWith | belote.py:83 | `next(...)` gives the first entry with the chosen bid. |
| Bidding.ContractOf | belote.py:84-90 | The contract keeps the bidder, points and suit of the entry, so the entry can be read back from it. It is neither coinched nor surcoinched. |
| Bidding.SelectContract | belote.py:77-90 | There is no contract exactly when no entry is an offer. Otherwise the contract is the first highest offer, not coinched or surcoinched. |
| Bidding.CloseRound | belote.py:76-93 | The end of a round keeps the given history. The contract is none exactly when no entry is an offer, and otherwise the first highest offer. A contract's suit becomes trump; without one the trump is kept, and nothing else changes. |
| Bidding.ProcessUserBid | belote.py:72-93 | The human's `(pts, suit)` and the three bot entries are appended. The call fails exactly on a raise past the ceiling. The contract is none exactly when the history has no offer, and is otherwise the first highest offer. Its suit becomes trump, and nothing else changes. |
| Bidding.PassStillMakesContract | belote.py:72-93 | The human's pass, sent as `(0, None)`, followed by three bot passes still yields a 0-point contract for the human. |
| Bidding.RaiseAfterCeilingFails | belote.py:66 | After a bot bids 160, the next bot that decides to bid makes the round fail. |
| Bidding.BotBidsCapped | belote.py:56-69 | The corrected bot round never fails. Each offer is a multiple of 10, above every earlier offer and at most 160, and a bot with no range left passes. |
| Bidding.ProcessUserAction | belote.py:72-93 | The corrected round records a real PASS. There is no contract exactly when no one has ever made an offer. |
| Bidding.AllBotsPass | belote.py:60-69 | The corrected bots add no offer exactly when every bot decided to pass. |
| Bidding.CorrectedAgreesOnOffers | belote.py:72-93 | When no bot raises past the ceiling, the written round succeeds, and the corrected round given the same offer yields the same game and contract. |
| Tricks.BestIndex | belote.py:121-130 | The loop keeps the best play so far. If a trump was played, that is the highest trump and the first of equals. If not, it is the highest card of the lead suit and the first of equals. |
| Tricks.WinnerUnique | belote.py:119-131 | A trick has only one winning play. |
| Tricks.TrickWinner | belote.py:119-131 | The winner made the winning play, and that play is a trump or of the lead suit. |
| Play.BotFault | belote.py:102-117 | The bots' turns fail exactly when some bot has no hand entry or an empty hand, and the fault named is the first such bot's. |
| Play.FaultFrom | belote.py:102-106 | The loop over the bots from the `i`-th one on, entered only once every earlier bot could play: it finds no fault exactly when every remaining bot holds a card, and otherwise it names the first remaining bot that cannot play. |
| Play.PlayRound | belote.py:97-106 | After the four plays, each of the four seats has given up exactly its card, the same seats have hands, and the trick is the earlier trick plus the four plays. |
| Play.TakeConserves | belote.py:98-99 | Moving a card from a hand onto the table keeps every card. |
| Play.RoundConserves | belote.py:97-106 | The four plays together keep every card held or on the table. |
| Play.PlayCard | belote.py:95-117 | `play_card` fails on the human's missing hand, on a card not in the hand, on the first bot that cannot play, and on a winner with no pile, in that order. It succeeds exactly when none of these occurs. |
| Play.Award | belote.py:109 | The cards on all the piles together grow by exactly the trick's cards: the winner's pile gains them at its end, and no other pile and no seat's entry changes. |
| Play.PlayTrick | belote.py:95-112 | Once every seat can play, the call fails exactly when the winner has no pile. Otherwise each seat gives up the card it played. The winner made the winning play and takes the whole trick onto its pile. The table is emptied, the winner acts next, no card appears or disappears, and nothing else changes. |
| Play.ResolveConserves | belote.py:108-111 | Moving the finished trick onto the winner's pile keeps every card in play. |
| Play.HoldingsUpdate | belote.py:105-109 | Replacing one seat's pile swaps that pile's cards for the new ones in the multiset of all piles. |
| Scoring.ComputeScores | belote.py:133-144 | Fails with the first seat, in reading order, that has no pile. Otherwise NORTH/SOUTH score the points of the SOUTH and NORTH piles and WEST/EAST those of the WEST and EAST piles, and the game stores the new scores. |
| Scoring.ScoresTotal | belote.py:133-144 | When the four piles hold exactly the deck, the two scores add up to 152 with a trump suit and 120 without. |
| Scoring.FinalScores | belote.py:133-144 | With no hand and no trick left, and the deck in play, the scores add up to the deck's total. |
| Snapshot.FromDict | belote.py:35-46 | A game rebuilt from a record belongs to the given room, and storing it gives back exactly that record. |
| Snapshot.GameRoundTrip | belote.py:23-46 | Rebuilding a game from its stored record under its own room gives back the same game. |
| Snapshot.RecordDeterminesGame | belote.py:23-46 | Within one room, two games have the same record exactly when they are the same game. |
| Conservation.DealStock | belote.py:11-54 | Right after the deal, every card of the deck is in play exactly once. |
| Conservation.PlayKeepsStock | belote.py:95-112 | When every seat has a pile and every seat can play, `play_card` succeeds, keeps a pile for every seat and keeps the cards in play. |

## Left out

- main.py (the chat commands) and state.py (storage as JSON) are not modelled. They are transport and persistence. main.py is used only to establish how a pass reaches `process_user_bid` (see Findings).
- Cards are the datatype `Card(rank, suit)`, not strings. `CardText` and `ParseCard` model the string form and prove it lossless. A string that is not a card is not a game input here. The only card string that comes from outside is the human's card in `play_card`, and there `hands[player].remove(card)` rejects any string the hand does not hold, a non-card string included, with a `ValueError`; such input behaves like `NotInHand`. A `KeyError` in the value tables could only come from a stored pile holding a non-card string, which the model does not represent.
- `random.shuffle`, `random.random` and `random.choice` are not modelled as functions. Their outcomes are parameters, constrained to what the draws can produce.
- The user's `suit` in `process_user_bid` is an `Option<Suit>`. The source accepts any value there. main.py only passes one of the four symbols or `None`.
- Play.PlayCard: when a bot cannot play or the winner has no pile, the source has already removed the earlier cards from their hands before raising. The model returns only the fault, not that partly updated game.
- Bidding.ProcessUserBid: when the bot round raises, the source has already appended the human's entry and earlier bot entries. The model returns only the fault.
- Snapshot.FromDict: the record has all eight fields, with `current_player` a seat index 0-3. A stored dictionary that lacks a key or holds other values is not represented. The model also does not represent that `from_dict` shares, rather than copies, the stored lists and dictionaries.
- Coinche and surcoinche, the rules of following suit, and multi-deal scoring do not exist in the source. The contract's `coinched` and `surcoinched` flags are always false.

## Findings

| source | as written | input that shows it | evidently intended | confidence | as-written member | corrected member |
|---|---|---|---|---|---|---|
| belote.py:72-93 (called from main.py:70-71, 99-102) | The human's pass is recorded as the offer `(0, None)`, so the history always has an offer and a contract is always formed | No earlier offers, the human passes, all three bots pass: the contract is 0 points for SOUTH with no trump, and main.py's "everyone passed" branch can never run | A pass is recorded as `PASS`, and there is no contract when nobody offers | not executed; follows from the code paths shown | Bidding.PassStillMakesContract | Bidding.ProcessUserAction |
| belote.py:66 | `random.choice(range(last+10, 170, 10))` with `last == 160` draws from an empty range and raises `IndexError` | The human bids 80♥, the first bot bids 160♠, and the second bot decides to bid | A bot that cannot outbid 160 passes | not executed; follows from the empty range | Bidding.RaiseAfterCeilingFails | Bidding.BotBidsCapped |
