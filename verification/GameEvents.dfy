/** The match event log, as the analyser of finished matches reads it. */
module GameEvents {
  import opened Common
  import opened SpadesEngine

  datatype Kind = MatchCreated | BidPlaced | CardPlayed | TrickCompleted | HandCompleted | MatchCompleted |
      TurnTimedOut | PlayerForfeited

  /** The payload fields that are read back; a field that is missing or malformed is `None`. */
  datatype Event = Event(kind: Kind, seat: Option<int>, bid: Option<int>, card: Option<Card>,
      scores: Option<(int, int)>)
}
