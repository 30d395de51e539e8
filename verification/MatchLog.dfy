/** The analyser of finished matches. */
module MatchLog {
  // One pass over the event log that counts nil bids, exact bids and comebacks, proved
  // equal to a hand-by-hand reading of the log.
  import opened Common
  import opened SpadesEngine
  import opened GameEvents

  /** A card as the log shows it; `seat` is whatever number the payload holds. */
  datatype Seen = Seen(seat: int, card: Card)

  datatype Report = Report(nils: nat, exactBidWin: bool, comebackWin: bool)

  // ---- the winner of a trick -----------------------------------------------------------

  predicate Takes(winner: Card, play: Card, lead: Suit) {
    || (play.suit == Spades && winner.suit != Spades)
    || (play.suit == lead && winner.suit != Spades && winner.suit != lead)
    || (play.suit == winner.suit && play.rank > winner.rank)
  }

  function Best(cards: seq<Seen>, n: nat): (w: nat)
    requires 1 <= n <= |cards|
    ensures w < n
  {
    if n == 1 then 0
    else
      var w := Best(cards, n - 1);
      if Takes(cards[w].card, cards[n - 1].card, cards[0].card.suit) then n - 1 else w
  }

  method TrickWinnerOf(cards: seq<Seen>) returns (winner: Option<int>)
    ensures winner == if |cards| != 4 then None else Some(cards[Best(cards, 4)].seat)
  {
    if |cards| != 4 {
      return None;
    }
    var leadSuit := cards[0].card.suit;
    var best := cards[0];
    for i := 1 to |cards|
      invariant best == cards[Best(cards, i)]
    {
      var play := cards[i];
      var suit, winnerSuit := play.card.suit, best.card.suit;
      var isBetterSuit := (suit == Spades && winnerSuit != Spades)
                          || (suit == leadSuit && winnerSuit != Spades && winnerSuit != leadSuit);
      var sameSuitHigher := suit == winnerSuit && play.card.rank > best.card.rank;
      if isBetterSuit || sameSuitHigher {
        best := play;
      }
    }
    winner := Some(best.seat);
  }

  ghost predicate SameCards(cards: seq<Seen>, trick: seq<Play>) {
    |cards| == |trick| && forall i :: 0 <= i < |cards| ==> cards[i] == Seen(trick[i].seat, trick[i].card)
  }

  /** The analyser and the engine, written differently, name the same winner. */
  lemma {:induction false} BestAgrees(cards: seq<Seen>, trick: seq<Play>, n: nat)
    requires SameCards(cards, trick) && 1 <= n <= |cards|
    ensures Best(cards, n) == BestOf(trick, n)
    ensures trick[BestOf(trick, n)].card.suit in {Spades, trick[0].card.suit}
  {
    if n > 1 { BestAgrees(cards, trick, n - 1); }
  }

  // ---- reading one hand ------------------------------------------------------------------

  predicate Closes(e: Event) {
    e.kind == HandCompleted || e.kind == MatchCompleted
  }

  predicate ShowsCard(e: Event) {
    (e.kind == CardPlayed || e.kind == TrickCompleted || Closes(e)) && e.seat.Some? && e.card.Some?
  }

  /** The cards of a hand in the order they were played. */
  function CardsOf(hand: seq<Event>): seq<Seen> {
    if hand == [] then []
    else
      var e := hand[|hand| - 1];
      CardsOf(hand[..|hand| - 1]) + (if ShowsCard(e) then [Seen(e.seat.value, e.card.value)] else [])
  }

  /** The last bid a seat placed in the hand. */
  function BidOf(hand: seq<Event>, seat: int): Option<int> {
    if hand == [] then None
    else
      var e := hand[|hand| - 1];
      if e.kind == BidPlaced && e.seat == Some(seat) && e.bid.Some? then e.bid else BidOf(hand[..|hand| - 1], seat)
  }

  /** How many of the first `k` tricks, four cards each, `seat` won. */
  function WonAmong(cards: seq<Seen>, k: nat, seat: int): nat
    requires 4 * k <= |cards|
  {
    if k == 0 then 0
    else
      var trick := cards[4 * k - 4..4 * k];
      WonAmong(cards, k - 1, seat) + (if trick[Best(trick, 4)].seat == seat then 1 else 0)
  }

  function TricksOf(hand: seq<Event>, seat: int): nat {
    WonAmong(CardsOf(hand), |CardsOf(hand)| / 4, seat)
  }

  predicate NilMade(hand: seq<Event>, seat: int) {
    BidOf(hand, seat) == Some(0) && TricksOf(hand, seat) == 0
  }

  predicate ExactMade(hand: seq<Event>, seat: int) {
    BidOf(hand, seat).Some? && BidOf(hand, seat).value > 0 && BidOf(hand, seat).value == TricksOf(hand, seat)
  }

  // ---- reading the whole log -----------------------------------------------------------------

  /** The log cut after every closing event; `open` is what follows the last one. */
  datatype Cut = Cut(closed: seq<seq<Event>>, open: seq<Event>)

  function CutLog(events: seq<Event>): Cut {
    if events == [] then Cut([], [])
    else
      var c := CutLog(events[..|events| - 1]);
      var e := events[|events| - 1];
      if Closes(e) then Cut(c.closed + [c.open + [e]], []) else Cut(c.closed, c.open + [e])
  }

  function Joined(hands: seq<seq<Event>>): seq<Event> {
    if hands == [] then [] else Joined(hands[..|hands| - 1]) + hands[|hands| - 1]
  }

  ghost predicate NoneCloses(events: seq<Event>) {
    forall i :: 0 <= i < |events| ==> !Closes(events[i])
  }

  ghost predicate OneHand(hand: seq<Event>) {
    hand != [] && Closes(hand[|hand| - 1]) && NoneCloses(hand[..|hand| - 1])
  }

  /** The cut loses nothing: the hands in order are the log, each ends with its only closing event. */
  lemma {:induction false} CutIsRight(events: seq<Event>)
    ensures var c := CutLog(events);
      && Joined(c.closed) + c.open == events
      && NoneCloses(c.open)
      && forall i :: 0 <= i < |c.closed| ==> OneHand(c.closed[i])
  {
    if events != [] {
      var init, e := events[..|events| - 1], events[|events| - 1];
      CutIsRight(init);
      var c := CutLog(init);
      var next := CutLog(events);
      assert events == init + [e];
      if Closes(e) {
        assert next.closed[..|next.closed| - 1] == c.closed;
        assert (c.open + [e])[..|c.open|] == c.open;
      }
    }
  }

  function NilCount(hands: seq<seq<Event>>, seat: int): nat {
    if hands == [] then 0
      else NilCount(hands[..|hands| - 1], seat) + (if NilMade(hands[|hands| - 1], seat) then 1 else 0)
  }

  predicate AnyExact(hands: seq<seq<Event>>, seat: int) {
    exists i :: 0 <= i < |hands| && ExactMade(hands[i], seat)
  }

  /** The scores last reported at the end of one of these hands; 0-0 before any. */
  function ScoresAfter(hands: seq<seq<Event>>): (int, int)
    requires forall i :: 0 <= i < |hands| ==> hands[i] != []
  {
    if hands == [] then (0, 0)
    else
      var last := hands[|hands| - 1];
      if last[|last| - 1].scores.Some? then last[|last| - 1].scores.value else ScoresAfter(hands[..|hands| - 1])
  }

  function Deficit(scores: (int, int), team: nat): int {
    if team == 1 then scores.0 - scores.1 else scores.1 - scores.0
  }

  /** Before one of the hands the team was 200 or more behind: the scores after the last hand are never looked at. */
  predicate Trailed(hands: seq<seq<Event>>, team: nat)
    requires forall i :: 0 <= i < |hands| ==> hands[i] != []
  {
    exists i :: 0 <= i < |hands| && Deficit(ScoresAfter(hands[..i]), team) >= 200
  }

  // ---- the one pass ------------------------------------------------------------------------------

  lemma {:induction false} CardsGrow(hand: seq<Event>, e: Event)
    ensures CardsOf(hand + [e]) == CardsOf(hand) + (if ShowsCard(e) then [Seen(e.seat.value, e.card.value)] else [])
    ensures forall s :: BidOf(hand + [e], s) == if e.kind == BidPlaced && e.seat == Some(s) && e.bid.Some? then e.bid
      else BidOf(hand, s)
  {
    assert (hand + [e])[..|hand|] == hand;
  }

  lemma {:induction false} WonIsLocal(cards: seq<Seen>, more: seq<Seen>, k: nat, seat: int)
    requires 4 * k <= |cards|
    ensures WonAmong(cards + more, k, seat) == WonAmong(cards, k, seat)
  {
    if k > 0 {
      WonIsLocal(cards, more, k - 1, seat);
      assert (cards + more)[4 * k - 4..4 * k] == cards[4 * k - 4..4 * k];
    }
  }

  /** The running tallies of the pass agree with the open hand, of which `k` tricks are complete. */
  ghost predicate Tallied(hand: seq<Event>, k: nat, bids: map<int, int>, tricks: map<int, nat>, current: seq<Seen>) {
    && BidsTallied(hand, bids)
    && TricksTallied(CardsOf(hand), k, tricks, current)
  }

  ghost predicate BidsTallied(hand: seq<Event>, bids: map<int, int>) {
    forall s :: (s in bids <==> BidOf(hand, s).Some?) && (s in bids ==> BidOf(hand, s) == Some(bids[s]))
  }

  ghost predicate TricksTallied(cards: seq<Seen>, k: nat, tricks: map<int, nat>, current: seq<Seen>) {
    && |current| < 4 && |cards| == 4 * k + |current| && current == cards[4 * k..]
    && (forall s :: Tally(tricks, s) == WonAmong(cards, k, s))
  }

  function Tally(tricks: map<int, nat>, seat: int): nat {
    if seat in tricks then tricks[seat] else 0
  }

  lemma {:induction false} TalliedTricks(hand: seq<Event>, k: nat, bids: map<int, int>, tricks: map<int, nat>,
      current: seq<Seen>, seat: int)
    requires Tallied(hand, k, bids, tricks, current)
    ensures Tally(tricks, seat) == TricksOf(hand, seat)
    ensures BidOf(hand, seat) == if seat in bids then Some(bids[seat]) else None
  {
    assert |CardsOf(hand)| / 4 == k;
  }

  lemma {:induction false} TallyBid(hand: seq<Event>, k: nat, e: Event, bids: map<int, int>, tricks: map<int, nat>,
      current: seq<Seen>)
    requires Tallied(hand, k, bids, tricks, current) && !ShowsCard(e)
    ensures Tallied(hand + [e], k,
      if e.kind == BidPlaced && e.seat.Some? && e.bid.Some? then bids[e.seat.value := e.bid.value]
      else bids, tricks, current)
  {
    CardsGrow(hand, e);
    assert CardsOf(hand) + [] == CardsOf(hand);
  }

  /** A card that leaves the trick incomplete. */
  lemma {:induction false} TallyCard(cards: seq<Seen>, k: nat, seen: Seen, tricks: map<int, nat>, current: seq<Seen>)
    requires TricksTallied(cards, k, tricks, current) && |current| < 3
    ensures TricksTallied(cards + [seen], k, tricks, current + [seen])
  {
    forall s ensures WonAmong(cards + [seen], k, s) == WonAmong(cards, k, s) { WonIsLocal(cards, [seen], k, s); }
  }

  /** The fourth card of a trick. */
  lemma {:induction false} TallyTrick(cards: seq<Seen>, k: nat, seen: Seen, tricks: map<int, nat>, current: seq<Seen>)
    requires TricksTallied(cards, k, tricks, current) && |current| == 3
    ensures var trick := current + [seen]; var winner := trick[Best(trick, 4)].seat;
      TricksTallied(cards + [seen], k + 1, tricks[winner := Tally(tricks, winner) + 1], [])
  {
    var trick := current + [seen];
    var more := cards + [seen];
    assert more[4 * (k + 1) - 4..4 * (k + 1)] == trick && more[4 * (k + 1)..] == [];
    var winner := trick[Best(trick, 4)].seat;
    var after := tricks[winner := Tally(tricks, winner) + 1];
    forall s ensures Tally(after, s) == WonAmong(more, k + 1, s) {
      WonIsLocal(cards, [seen], k, s);
      assert WonAmong(more, k + 1, s) == WonAmong(more, k, s) + (if winner == s then 1 else 0);
    }
  }

  /** The tallies of the finished hands. */
  ghost predicate Summed(hands: seq<seq<Event>>, seat: int, team: nat, nils: nat, exact: bool, scores: (int, int),
      down: bool) {
    && (forall i :: 0 <= i < |hands| ==> hands[i] != [])
    && nils == NilCount(hands, seat)
    && exact == AnyExact(hands, seat)
    && scores == ScoresAfter(hands)
    && down == Trailed(hands, team)
  }

  lemma {:induction false} OneMoreHand(hands: seq<seq<Event>>, hand: seq<Event>, seat: int, team: nat, nils: nat,
      exact: bool, scores: (int, int), down: bool)
    requires Summed(hands, seat, team, nils, exact, scores, down) && hand != []
    ensures Summed(hands + [hand], seat, team,
                   nils + (if NilMade(hand, seat) then 1 else 0),
                   exact || ExactMade(hand, seat),
                   if hand[|hand| - 1].scores.Some? then hand[|hand| - 1].scores.value else scores,
                   down || Deficit(scores, team) >= 200)
  {
    var next := hands + [hand];
    assert next[..|next| - 1] == hands && next[|next| - 1] == hand;
    ExactGrows(hands, hand, seat);
    TrailedGrows(hands, hand, team);
  }

  lemma {:induction false} ExactGrows(hands: seq<seq<Event>>, hand: seq<Event>, seat: int)
    ensures AnyExact(hands + [hand], seat) <==> AnyExact(hands, seat) || ExactMade(hand, seat)
  {
    var next := hands + [hand];
    if AnyExact(hands, seat) {
      var i :| 0 <= i < |hands| && ExactMade(hands[i], seat);
      assert ExactMade(next[i], seat);
    }
    if ExactMade(hand, seat) {
      assert ExactMade(next[|hands|], seat);
    }
    if AnyExact(next, seat) {
      var i :| 0 <= i < |next| && ExactMade(next[i], seat);
      assert i < |hands| ==> next[i] == hands[i];
    }
  }

  lemma {:induction false} TrailedGrows(hands: seq<seq<Event>>, hand: seq<Event>, team: nat)
    requires hand != [] && forall i :: 0 <= i < |hands| ==> hands[i] != []
    ensures Trailed(hands + [hand], team) <==> Trailed(hands, team) || Deficit(ScoresAfter(hands), team) >= 200
  {
    var next := hands + [hand];
    assert next[..|hands|] == hands;
    if Trailed(hands, team) {
      var i :| 0 <= i < |hands| && Deficit(ScoresAfter(hands[..i]), team) >= 200;
      assert next[..i] == hands[..i];
      assert Deficit(ScoresAfter(next[..i]), team) >= 200;
    }
    if Deficit(ScoresAfter(hands), team) >= 200 {
      assert Deficit(ScoresAfter(next[..|hands|]), team) >= 200;
    }
    if Trailed(next, team) {
      var i :| 0 <= i < |next| && Deficit(ScoresAfter(next[..i]), team) >= 200;
      assert i < |hands| ==> next[..i] == hands[..i] && Deficit(ScoresAfter(hands[..i]), team) >= 200;
    }
  }

  /** The hand-by-hand meaning of a log. */
  ghost predicate Means(events: seq<Event>, seat: int, team: nat, winnerTeam: nat, r: Report) {
    var hands := CutLog(events).closed;
    && (forall i :: 0 <= i < |hands| ==> hands[i] != [])
    && r.nils == NilCount(hands, seat)
    && (r.exactBidWin <==> team == winnerTeam && AnyExact(hands, seat))
    && (r.comebackWin <==> team == winnerTeam && Trailed(hands, if team == 1 then 1 else 0))
  }

  lemma {:induction false} CutGrows(events: seq<Event>, n: nat)
    requires n < |events|
    ensures var c, e := CutLog(events[..n]), events[n];
      CutLog(events[..n + 1]) == if Closes(e) then Cut(c.closed + [c.open + [e]], []) else Cut(c.closed, c.open + [e])
  {
    assert events[..n + 1][..n] == events[..n];
  }

  lemma {:induction false} FreshTally()
    ensures Tallied([], 0, map[], map[], [])
  {
  }

  /** `analyzeMatch`. */
  method AnalyzeMatch(events: seq<Event>, playerSeat: int, team: nat, winnerTeam: nat) returns (report: Report)
    ensures Means(events, playerSeat, team, winnerTeam, report)
  {
    var bids: map<int, int> := map[];
    var tricks: map<int, nat> := map[];
    var currentTrick: seq<Seen> := [];
    var successfulNilBids: nat := 0;
    var exactBid := false;
    var previousScores := (0, 0);
    var wasDownByTwoHundred := false;
    var ownTeam: nat := if team == 1 then 1 else 0;
    ghost var k: nat := 0;
    FreshTally();
    for n := 0 to |events|
      invariant Tallied(CutLog(events[..n]).open, k, bids, tricks, currentTrick)
      invariant Summed(CutLog(events[..n]).closed, playerSeat, ownTeam, successfulNilBids, exactBid, previousScores,
        wasDownByTwoHundred)
    {
      var event := events[n];
      ghost var before := CutLog(events[..n]);
      CutGrows(events, n);
      bids, tricks, currentTrick, k := ReadEvent(before.open, k, event, bids, tricks, currentTrick);
      if event.kind == HandCompleted || event.kind == MatchCompleted {
        ghost var hand := before.open + [event];
        OneMoreHand(before.closed, hand, playerSeat, ownTeam, successfulNilBids, exactBid, previousScores,
          wasDownByTwoHundred);
        TalliedTricks(hand, k, bids, tricks, currentTrick, playerSeat);
        var wonTricks := Tally(tricks, playerSeat);
        if playerSeat in bids && bids[playerSeat] == 0 && wonTricks == 0 {
          successfulNilBids := successfulNilBids + 1;
        }
        if playerSeat in bids && bids[playerSeat] > 0 && bids[playerSeat] == wonTricks {
          exactBid := true;
        }
        if Deficit(previousScores, ownTeam) >= 200 {
          wasDownByTwoHundred := true;
        }
        if event.scores.Some? {
          previousScores := event.scores.value;
        }
        bids, tricks, currentTrick, k := map[], map[], [], 0;
        FreshTally();
      }
    }
    assert events[..|events|] == events;
    report := Report(successfulNilBids, team == winnerTeam && exactBid, team == winnerTeam && wasDownByTwoHundred);
  }

  /** One event within a hand: a bid, a card that may complete a trick, or something else. */
  method ReadEvent(ghost hand: seq<Event>, ghost k: nat, event: Event, bids: map<int, int>, tricks: map<int, nat>,
      current: seq<Seen>)
    returns (newBids: map<int, int>, newTricks: map<int, nat>, newCurrent: seq<Seen>, ghost newK: nat)
    requires Tallied(hand, k, bids, tricks, current)
    ensures Tallied(hand + [event], newK, newBids, newTricks, newCurrent)
  {
    newBids, newTricks, newCurrent, newK := bids, tricks, current, k;
    var isCardEvent := event.kind == CardPlayed || event.kind == TrickCompleted || event.kind == HandCompleted ||
      event.kind == MatchCompleted;
    CardsGrow(hand, event);
    if event.kind == BidPlaced {
      TallyBid(hand, k, event, bids, tricks, current);
      if event.seat.Some? && event.bid.Some? {
        newBids := newBids[event.seat.value := event.bid.value];
      }
    } else if !isCardEvent || event.seat == None || event.card == None {
      TallyBid(hand, k, event, bids, tricks, current);
    } else {
      newTricks, newCurrent,
        newK := AddCard(CardsOf(hand), k, Seen(event.seat.value, event.card.value), tricks, current);
    }
  }

  method AddCard(ghost cards: seq<Seen>, ghost k: nat, seen: Seen, tricks: map<int, nat>, current: seq<Seen>)
    returns (newTricks: map<int, nat>, newCurrent: seq<Seen>, ghost newK: nat)
    requires TricksTallied(cards, k, tricks, current)
    ensures TricksTallied(cards + [seen], newK, newTricks, newCurrent)
  {
    newTricks, newCurrent, newK := tricks, current + [seen], k;
    if |newCurrent| == 4 {
      TallyTrick(cards, k, seen, tricks, current);
      var winner := TrickWinnerOf(newCurrent);
      newTricks := newTricks[winner.value := Tally(newTricks, winner.value) + 1];
      newCurrent, newK := [], k + 1;
    } else {
      TallyCard(cards, k, seen, tricks, current);
    }
  }

  // ---- what the log hides ------------------------------------------------------------------------

  /** A seat whose bid ran out of time has no bid in the log: its hand counts for nothing, however it went. */
  lemma {:induction false} UnloggedBidNeverCounts(hand: seq<Event>, seat: int)
    requires forall i :: 0 <= i < |hand| ==> !(hand[i].kind == BidPlaced && hand[i].seat == Some(seat))
    ensures BidOf(hand, seat) == None && !NilMade(hand, seat) && !ExactMade(hand, seat)
  {
    if hand != [] { UnloggedBidNeverCounts(hand[..|hand| - 1], seat); }
  }

  predicate Ignored(e: Event) {
    e.kind in {TurnTimedOut, PlayerForfeited, MatchCreated}
  }

  function Visible(events: seq<Event>): seq<Event> {
    if events == [] then []
    else
      var e := events[|events| - 1];
      Visible(events[..|events| - 1]) + (if Ignored(e) then [] else [e])
  }

  function AllVisible(hands: seq<seq<Event>>): seq<seq<Event>> {
    seq(|hands|, i requires 0 <= i < |hands| => Visible(hands[i]))
  }

  lemma {:induction false} VisibleOneMore(events: seq<Event>, e: Event)
    ensures Visible(events + [e]) == Visible(events) + (if Ignored(e) then [] else [e])
  {
    assert (events + [e])[..|events|] == events;
  }

  lemma {:induction false} CutOneMore(events: seq<Event>, e: Event)
    ensures var c := CutLog(events);
      CutLog(events + [e]) == if Closes(e) then Cut(c.closed + [c.open + [e]], []) else Cut(c.closed, c.open + [e])
  {
    assert (events + [e])[..|events|] == events;
  }

  lemma {:induction false} AllVisibleOneMore(hands: seq<seq<Event>>, hand: seq<Event>)
    ensures AllVisible(hands + [hand]) == AllVisible(hands) + [Visible(hand)]
  {
  }

  /** An event more, seen or not. */
  lemma {:induction false} CutOfVisibleOneMore(init: seq<Event>, e: Event)
    requires CutLog(Visible(init)) == Cut(AllVisible(CutLog(init).closed), Visible(CutLog(init).open))
    ensures CutLog(Visible(init + [e])) == Cut(AllVisible(CutLog(init + [e]).closed), Visible(CutLog(init + [e]).open))
  {
    var c := CutLog(init);
    CutOneMore(init, e);
    VisibleOneMore(init, e);
    VisibleOneMore(c.open, e);
    if Ignored(e) {
      assert Visible(init) + [] == Visible(init) && Visible(c.open) + [] == Visible(c.open);
    } else {
      CutOneMore(Visible(init), e);
      AllVisibleOneMore(c.closed, c.open + [e]);
    }
  }

  /** Dropping the ignored events first cuts the log into the same hands. */
  lemma {:induction false} CutOfVisible(events: seq<Event>)
    ensures CutLog(Visible(events)) == Cut(AllVisible(CutLog(events).closed), Visible(CutLog(events).open))
  {
    if events == [] {
      assert AllVisible([]) == [];
    } else {
      var init, e := events[..|events| - 1], events[|events| - 1];
      CutOfVisible(init);
      CutOfVisibleOneMore(init, e);
      assert events == init + [e];
    }
  }

  lemma {:induction false} VisibleReadsSame(hand: seq<Event>, seat: int)
    ensures CardsOf(Visible(hand)) == CardsOf(hand) && BidOf(Visible(hand), seat) == BidOf(hand, seat)
  {
    if hand != [] {
      var init, e := hand[..|hand| - 1], hand[|hand| - 1];
      VisibleReadsSame(init, seat);
      VisibleReadsOneMore(init, e, seat);
      assert hand == init + [e];
    }
  }

  lemma {:induction false} VisibleReadsOneMore(init: seq<Event>, e: Event, seat: int)
    requires CardsOf(Visible(init)) == CardsOf(init) && BidOf(Visible(init), seat) == BidOf(init, seat)
    ensures CardsOf(Visible(init + [e])) == CardsOf(init + [e]) &&
      BidOf(Visible(init + [e]), seat) == BidOf(init + [e], seat)
  {
    VisibleOneMore(init, e);
    CardsGrow(init, e);
    if Ignored(e) {
      assert Visible(init) + [] == Visible(init) && CardsOf(init) + [] == CardsOf(init);
    } else {
      CardsGrow(Visible(init), e);
    }
  }

  /** Timeouts leave no trace: a log with them reads like the log without them, the card or bid they played missing. */
  lemma {:induction false} TimeoutsAreInvisible(events: seq<Event>, seat: int, i: nat)
    requires i < |CutLog(events).closed|
    ensures |CutLog(Visible(events)).closed| == |CutLog(events).closed|
    ensures var hand, shown := CutLog(events).closed[i], CutLog(Visible(events)).closed[i];
      (NilMade(hand, seat) <==> NilMade(shown, seat)) && (ExactMade(hand, seat) <==> ExactMade(shown, seat))
  {
    CutOfVisible(events);
    VisibleReadsSame(CutLog(events).closed[i], seat);
  }

  // ---- streaks and progression --------------------------------------------------------------------

  predicate Run(results: seq<bool>, from: nat, to: nat) {
    from <= to <= |results| && forall i :: from <= i < to ==> results[i]
  }

  /** The run that ends the history, and the longest run anywhere. */
  method Streaks(results: seq<bool>) returns (current: nat, best: nat)
    ensures current <= |results| && Run(results, |results| - current, |results|)
    ensures current < |results| ==> !results[|results| - current - 1]
    ensures exists from: nat, to: nat :: Run(results, from, to) && to - from == best
    ensures forall from: nat, to: nat :: Run(results, from, to) ==> to - from <= best
    ensures current <= best
  {
    best := 0;
    var running: nat := 0;
    ghost var start: nat := 0;
    for n := 0 to |results|
      invariant running <= n && Run(results, n - running, n) && (running < n ==> !results[n - running - 1])
      invariant Run(results, start, start + best)
      invariant forall from: nat, to: nat :: Run(results, from, to) && to <= n ==> to - from <= best
      invariant running <= best
    {
      running := if results[n] then running + 1 else 0;
      if running > best {
        best := running;
        start := n + 1 - running;
      }
      LastRun(results, n + 1, running);
    }
    current := 0;
    while current < |results| && results[|results| - 1 - current]
      invariant current <= |results| && Run(results, |results| - current, |results|)
    {
      current := current + 1;
    }
    assert Run(results, |results| - current, |results|);
  }

  lemma {:induction false} LastRun(results: seq<bool>, n: nat, running: nat)
    requires running <= n <= |results| && (running < n ==> !results[n - running - 1])
    ensures forall from: nat :: Run(results, from, n) ==> n - from <= running
  {
    if running < n {
      assert !results[n - running - 1];
    }
  }

  const THRESHOLDS: seq<nat> := [0, 500, 1500, 3500, 7000, 12000, 20000]

  datatype Progress = Progress(rank: nat, intoRank: nat, forNextRank: nat, percent: nat)

  /** `progressionFor`: the highest rank reached, and how far the next one is. */
  method ProgressionFor(xp: nat) returns (p: Progress)
    ensures p.rank < |THRESHOLDS| && THRESHOLDS[p.rank] <= xp
    ensures forall i :: p.rank < i < |THRESHOLDS| ==> xp < THRESHOLDS[i]
    ensures p.intoRank == xp - THRESHOLDS[p.rank]
    ensures p.rank + 1 < |THRESHOLDS| ==>
      && p.intoRank < p.forNextRank == THRESHOLDS[p.rank + 1] - THRESHOLDS[p.rank]
      && p.percent < 100 && p.percent * p.forNextRank <= 100 * p.intoRank < (p.percent + 1) * p.forNextRank
    ensures p.rank + 1 == |THRESHOLDS| ==> p.percent == 100
  {
    var index := 0;
    var next := 1;
    while next < |THRESHOLDS| && xp >= THRESHOLDS[next]
      invariant 1 <= next <= |THRESHOLDS| && index == next - 1 && THRESHOLDS[index] <= xp
    {
      index := next;
      next := next + 1;
    }
    var into := xp - THRESHOLDS[index];
    if index + 1 < |THRESHOLDS| {
      var size := THRESHOLDS[index + 1] - THRESHOLDS[index];
      PercentBounds(into, size);
      var percent := 100 * into / size;
      p := Progress(index, into, size, if percent < 100 then percent else 100);
    } else {
      p := Progress(index, into, 0, 100);
    }
  }

  lemma {:induction false} PercentBounds(into: nat, size: nat)
    requires into < size
    ensures var percent := 100 * into / size; percent < 100 && percent * size <= 100 * into < (percent + 1) * size
  {
    var percent := 100 * into / size;
    assert percent >= 100 ==> percent * size >= 100 * size;
  }
}
