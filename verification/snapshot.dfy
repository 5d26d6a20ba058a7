/** `to_dict` and `from_dict` (belote.py lines 23-46): the game as the
    eight-field record that is stored per room, and back.  The room id is not
    part of the record; it is supplied again when the game is rebuilt. */
module Snapshot {
  import opened Results
  import opened Cards
  import opened Game

  /** The stored record, one field per key of the dictionary. */
  datatype Record = Record(
    hands: map<Player, seq<Card>>,
    bids: seq<BidEntry>,
    contract: Option<Contract>,
    currentPlayer: Seat,
    trick: seq<Ply>,
    wonTricks: map<Player, seq<Card>>,
    scores: Scores,
    trump: Option<Suit>
  )

  /** `from_dict(room_id, data)`: a fresh game for the room whose eight
      fields are then overwritten from the record.  Storing the rebuilt game
      gives back the record it was rebuilt from. */
  function FromDict(roomId: string, d: Record): (g: GameState)
    ensures g.roomId == roomId
    ensures ToDict(g) == d
  {
    var g := NewGame(roomId);
    g.(hands := d.hands, bids := d.bids, contract := d.contract, currentPlayer := d.currentPlayer,
       trick := d.trick, wonTricks := d.wonTricks, scores := d.scores, trump := d.trump)
  }

  /** `to_dict()`: everything but the room id. */
  function ToDict(g: GameState): Record {
    Record(g.hands, g.bids, g.contract, g.currentPlayer, g.trick, g.wonTricks, g.scores, g.trump)
  }

  /** Rebuilding from the record under the same room id gives back the same game. */
  lemma GameRoundTrip(g: GameState)
    ensures FromDict(g.roomId, ToDict(g)) == g
  {
  }

  /** The record does not depend on the room id, and two games of the same
      room with the same record are the same game. */
  lemma RecordDeterminesGame(g: GameState, h: GameState)
    requires g.roomId == h.roomId
    ensures ToDict(g) == ToDict(h) <==> g == h
  {
    if ToDict(g) == ToDict(h) {
      GameRoundTrip(g);
      GameRoundTrip(h);
    }
  }
}
