/** The log analyser against the engine itself. */
module LogFidelity {
  // Reading only the log, the analyser sees exactly the hands that were played without
  // a silent move: a turn that timed out and was bid or played for the player.
  import opened Common
  import opened SpadesEngine
  import opened GameEvents
  import opened MatchCommands
  import opened MatchLog

  /** What the engine knew when a hand ended: bids, tricks per seat, and the scores before the hand. */
  datatype HandResult = HandResult(bids: seq<Option<Bid>>, tricks: seq<nat>, before: seq<int>)

  function FinalTricks(s: State, seat: nat, card: Card): seq<nat>
    requires Playable(s) && |s.trick| == 3 && seat < 4
  {
    TrickTaken(s, s.hands, s.trick + [Play(seat, card)], s.spadesBroken).tricksWon
  }

  /** The card a move plays: the player's own, or the one a timeout plays for the seat to act. */
  function PlayedBy(s: State, m: Issued): Option<Play>
    requires Playable(s)
  {
    match m.command
    case PlayOne(card) => if m.seat < 4 then Some(Play(m.seat, card)) else None
    case ClaimTimeout =>
      if s.phase == Playing && s.current.Some? && LegalCards(s, s.current.value) != []
      then Some(Play(s.current.value, LegalCards(s, s.current.value)[0])) else None
    case _ => None
  }

  /** The move was the last of a hand. */
  predicate HandEnds(s: State, n: State) {
    s.phase == Playing && (n.phase == Completed || n.handNumber != s.handNumber)
  }

  /** A timeout that bid or played; the log shows only that a turn timed out. */
  predicate Silent(m: Issued, n: State) {
    m.command.ClaimTimeout? && n.phase != Forfeited
  }

  /** A timeout that played a card. */
  predicate SilentCard(s: State, m: Issued, n: State) {
    Silent(m, n) && s.phase == Playing
  }

  /** The hand this move finishes, if any. */
  function ResultOf(s: State, m: Issued, n: State): seq<HandResult> {
    if Playable(s) && |s.trick| == 3 && HandEnds(s, n) && PlayedBy(s, m).Some?
    then [HandResult(s.bids, FinalTricks(s, PlayedBy(s, m).value.seat, PlayedBy(s, m).value.card), s.scores)]
    else []
  }

  /** The hands the engine finished in the moves from `a` up to `n`. */
  function Results(states: seq<State>, commands: seq<Issued>, a: nat, n: nat): seq<HandResult>
    requires a <= n <= |commands| && |states| == |commands| + 1
    decreases n
  {
    if n == a then [] else Results(states, commands, a, n - 1) + ResultOf(states[n - 1], commands[n - 1], states[n])
  }

  // ---- log and state side by side -------------------------------------------------------

  function AmountOf(bid: Option<Bid>): Option<int> {
    if bid.Some? then Some(bid.value.amount) else None
  }

  /** The bid a timeout makes. */
  const LATE_BID := Bid(1, false)

  /** The log has the seat's bid; unless `strict`, one made by a timeout may be missing. */
  predicate BidShown(hand: seq<Event>, seat: nat, bid: Option<Bid>, strict: bool) {
    BidOf(hand, seat) == AmountOf(bid) || (!strict && BidOf(hand, seat) == None && bid == Some(LATE_BID))
  }

  ghost predicate BidsShown(hand: seq<Event>, bids: seq<Option<Bid>>, strict: bool) {
    |bids| == 4 && forall seat: nat {:trigger BidShown(hand, seat, bids[seat], strict)} :: seat < 4 ==>
      BidShown(hand, seat, bids[seat], strict)
  }

  /** The cards of the hand so far: `k` tricks with these winners, then the current trick. */
  ghost predicate CardsShown(cards: seq<Seen>, k: nat, tricks: seq<nat>, trick: seq<Play>) {
    && |tricks| == 4 && |cards| == 4 * k + |trick| && SameCards(cards[4 * k..], trick)
    && forall seat: nat :: seat < 4 ==> WonAmong(cards, k, seat) == tricks[seat]
  }

  ghost predicate OpenShows(hand: seq<Event>, s: State, strict: bool)
    requires Formed(s)
  {
    BidsShown(hand, s.bids, strict) && CardsShown(CardsOf(hand), Sum4(s.tricksWon), s.tricksWon, s.trick)
  }

  ghost predicate HandShows(hand: seq<Event>, r: HandResult, strict: bool) {
    && hand != [] && |r.tricks| == 4 && |r.before| == 2
    && BidsShown(hand, r.bids, strict) && AllBid(r.bids)
    && forall seat: nat :: seat < 4 ==> TricksOf(hand, seat) == r.tricks[seat]
  }

  ghost predicate AllShown(hands: seq<seq<Event>>, results: seq<HandResult>, strict: bool) {
    && |hands| == |results|
    && (forall i {:trigger HandShows(hands[i], results[i], strict)} :: 0 <= i < |hands| ==>
       HandShows(hands[i], results[i], strict))
  }

  ghost predicate NonEmpty(hands: seq<seq<Event>>) {
    forall i :: 0 <= i < |hands| ==> hands[i] != []
  }

  /** The scores the analyser has in mind before hand `i` are those of the engine; `base` are the hands read earlier. */
  ghost predicate ShownBefore(base: seq<seq<Event>>, hands: seq<seq<Event>>, results: seq<HandResult>, i: int) {
    && 0 <= i < |results| && |results| == |hands| && NonEmpty(base + hands[..i]) && |results[i].before| == 2
    && ScoresAfter(base + hands[..i]) == (results[i].before[0], results[i].before[1])
  }

  ghost predicate ScoresShown(base: seq<seq<Event>>, hands: seq<seq<Event>>, results: seq<HandResult>) {
    forall i {:trigger ShownBefore(base, hands, results, i)} :: 0 <= i < |results| ==>
      ShownBefore(base, hands, results, i)
  }

  /** Since the hands in `base` everything the log says agrees with the state and the finished hands. */
  ghost predicate Tracks(log: seq<Event>, base: seq<seq<Event>>, results: seq<HandResult>, s: State, strict: bool) {
    match CutLog(log)
    case Cut(closed, open) =>
      && Formed(s)
      && |base| <= |closed| && closed[..|base|] == base
      && AllShown(closed[|base|..], results, strict) && ScoresShown(base, closed[|base|..], results)
      && NonEmpty(closed)
      && ScoresAfter(closed) == (s.scores[0], s.scores[1])
      && (Running(s) ==> OpenShows(open, s, strict))
  }

  // ---- one move -------------------------------------------------------------------------------

  lemma {:induction false} StaysOpen(log: seq<Event>, e: Event, base: seq<seq<Event>>, results: seq<HandResult>,
      s: State, n: State, strict: bool)
    requires Tracks(log, base, results, s, strict) && !Closes(e) && Formed(n) && n.scores == s.scores
    requires Running(n) ==> OpenShows(CutLog(log).open + [e], n, strict)
    ensures Tracks(log + [e], base, results, n, strict)
  {
    assert (log + [e])[..|log|] == log;
  }

  /** One seat has bid; its bid is logged, or it is a timeout's. */
  lemma {:induction false} BidsAfter(hand: seq<Event>, e: Event, bids: seq<Option<Bid>>, next: seq<Option<Bid>>,
      seat: nat, strict: bool)
    requires BidsShown(hand, bids, strict) && seat < 4 && |next| == 4 && next == bids[seat := next[seat]] &&
      bids[seat] == None
    requires e.kind == BidPlaced ==> e.seat == Some(seat) && e.bid.Some? && AmountOf(next[seat]) == e.bid
    requires e.kind != BidPlaced ==> !strict && next[seat] == Some(LATE_BID)
    ensures BidsShown(hand + [e], next, strict)
  {
    CardsGrow(hand, e);
    forall o: nat | o < 4 ensures BidShown(hand + [e], o, next[o], strict) {
      assert BidShown(hand, o, bids[o], strict);
    }
  }

  lemma {:induction false} BidTracks(log: seq<Event>, base: seq<seq<Event>>, results: seq<HandResult>, s: State,
      seat: nat, bid: Bid, n: State, strict: bool)
    requires Tracks(log, base, results, s, strict) && Fair(s) && seat < 4 && PlaceBid(s, seat, bid) == Ok(n)
    ensures Tracks(log + [Event(BidPlaced, Some(seat), Some(bid.amount), None, None)], base, results, n, strict)
  {
    var e := Event(BidPlaced, Some(seat), Some(bid.amount), None, None);
    BidOpenShows(CutLog(log).open, e, s, seat, n, strict);
    StaysOpen(log, e, base, results, s, n, strict);
  }

  /** A bid, logged or made by a timeout, and no card. */
  lemma {:induction false} BidOpenShows(hand: seq<Event>, e: Event, s: State, seat: nat, n: State, strict: bool)
    requires Formed(s) && Formed(n) && OpenShows(hand, s, strict) && seat < 4 && s.bids[seat] == None && !ShowsCard(e)
    requires n.bids == s.bids[seat := n.bids[seat]] && n.tricksWon == s.tricksWon && n.trick == s.trick
    requires e.kind == BidPlaced ==> e.seat == Some(seat) && e.bid.Some? && AmountOf(n.bids[seat]) == e.bid
    requires e.kind != BidPlaced ==> !strict && n.bids[seat] == Some(LATE_BID)
    ensures OpenShows(hand + [e], n, strict)
  {
    CardsGrow(hand, e);
    assert CardsOf(hand) + [] == CardsOf(hand);
    BidsAfter(hand, e, s.bids, n.bids, seat, strict);
  }

  lemma {:induction false} CardJoinsTrick(cards: seq<Seen>, k: nat, tricks: seq<nat>, trick: seq<Play>, seat: nat,
      card: Card)
    requires CardsShown(cards, k, tricks, trick)
    ensures CardsShown(cards + [Seen(seat, card)], k, tricks, trick + [Play(seat, card)])
  {
    var more := cards + [Seen(seat, card)];
    assert more[4 * k..] == cards[4 * k..] + [Seen(seat, card)];
    forall o: nat | o < 4 ensures WonAmong(more, k, o) == tricks[o] { WonIsLocal(cards, [Seen(seat, card)], k, o); }
  }

  lemma {:induction false} TrickIsTaken(cards: seq<Seen>, k: nat, tricks: seq<nat>, trick: seq<Play>)
    requires CardsShown(cards, k, tricks, trick) && |trick| == 4 && AllSeated(trick)
    ensures var w := TrickWinner(trick); w < 4 && CardsShown(cards, k + 1, tricks[w := tricks[w] + 1], [])
  {
    var shown := cards[4 * k..];
    BestAgrees(shown, trick, 4);
    var w := TrickWinner(trick);
    assert w == trick[BestOf(trick, 4)].seat;
    assert cards[4 * (k + 1) - 4..4 * (k + 1)] == shown;
    assert cards[4 * (k + 1)..] == [];
    var next := tricks[w := tricks[w] + 1];
    forall o: nat | o < 4 ensures WonAmong(cards, k + 1, o) == next[o] {
      assert WonAmong(cards, k + 1, o) == WonAmong(cards, k, o) + (if shown[Best(shown, 4)].seat == o then 1 else 0);
    }
  }

  /** The logged hand once the card has been added. */
  lemma {:induction false} CardLogged(open: seq<Event>, e: Event, s: State, seat: nat, card: Card, strict: bool)
    requires Playable(s) && OpenShows(open, s, strict) && ShowsCard(e) && e.seat == Some(seat) &&
      e.card == Some(card) && e.kind != BidPlaced
    ensures BidsShown(open + [e], s.bids, strict)
    ensures CardsShown(CardsOf(open + [e]), Sum4(s.tricksWon), s.tricksWon, s.trick + [Play(seat, card)])
  {
    CardsGrow(open, e);
    forall o: nat | o < 4 ensures BidShown(open + [e], o, s.bids[o], strict) {
      assert BidShown(open, o, s.bids[o], strict);
    }
    CardJoinsTrick(CardsOf(open), Sum4(s.tricksWon), s.tricksWon, s.trick, seat, card);
  }

  lemma {:induction false} TricksAtEnd(hand: seq<Event>, k: nat, tricks: seq<nat>, seat: nat)
    requires CardsShown(CardsOf(hand), k, tricks, []) && seat < 4
    ensures TricksOf(hand, seat) == tricks[seat]
  {
    assert |CardsOf(hand)| / 4 == k;
  }

  lemma {:induction false} HandCloses(log: seq<Event>, e: Event, base: seq<seq<Event>>, results: seq<HandResult>,
      s: State, r: HandResult, n: State, strict: bool)
    requires Tracks(log, base, results, s, strict) && Closes(e) && Formed(n) &&
      e.scores == Some((n.scores[0], n.scores[1]))
    requires HandShows(CutLog(log).open + [e], r, strict) && r.before == s.scores
    requires Running(n) ==> OpenShows([], n, strict)
    ensures Tracks(log + [e], base, results + [r], n, strict)
  {
    assert (log + [e])[..|log|] == log;
    var c := CutLog(log);
    var hand := c.open + [e];
    var closed := c.closed + [hand];
    assert CutLog(log + [e]) == Cut(closed, []);
    assert closed[|base|..] == c.closed[|base|..] + [hand] && closed[..|base|] == base;
    assert closed[..|closed| - 1] == c.closed;
    OneMoreShown(base, c.closed[|base|..], results, hand, r, strict);
    assert base + c.closed[|base|..] == c.closed;
    OneMoreBefore(base, c.closed[|base|..], results, hand, r);
  }

  lemma {:induction false} OneMoreShown(base: seq<seq<Event>>, hands: seq<seq<Event>>, results: seq<HandResult>,
      hand: seq<Event>, r: HandResult, strict: bool)
    requires AllShown(hands, results, strict) && HandShows(hand, r, strict)
    ensures AllShown(hands + [hand], results + [r], strict)
  {
    var more, all := hands + [hand], results + [r];
    forall i | 0 <= i < |more| ensures HandShows(more[i], all[i], strict) {
      if i < |hands| { assert HandShows(hands[i], results[i], strict); }
    }
  }

  lemma {:induction false} OneMoreBefore(base: seq<seq<Event>>, hands: seq<seq<Event>>, results: seq<HandResult>,
      hand: seq<Event>, r: HandResult)
    requires |hands| == |results| && ScoresShown(base, hands, results) && NonEmpty(base + hands) && |r.before| == 2
    requires ScoresAfter(base + hands) == (r.before[0], r.before[1])
    ensures ScoresShown(base, hands + [hand], results + [r])
  {
    var more, all := hands + [hand], results + [r];
    forall i | 0 <= i < |all| ensures ShownBefore(base, more, all, i) {
      if i < |results| {
        assert ShownBefore(base, hands, results, i);
        assert more[..i] == hands[..i] && all[i] == results[i];
      } else {
        assert more[..i] == hands;
      }
    }
  }

  lemma {:induction false} FreshHandShows(hand: seq<Event>, s: State, strict: bool)
    requires Formed(s) && s.bids == [None, None, None, None] && s.tricksWon == [0, 0, 0, 0] && s.trick == []
    requires CardsOf(hand) == [] && forall seat :: BidOf(hand, seat) == None
    ensures OpenShows(hand, s, strict)
  {
    forall o: nat | o < 4 ensures BidShown(hand, o, s.bids[o], strict) { assert BidOf(hand, o) == None; }
  }

  lemma {:induction false} PlayTracks(log: seq<Event>, base: seq<seq<Event>>, results: seq<HandResult>, s: State,
      m: Issued, e: Event, n: State, strict: bool)
    requires Tracks(log, base, results, s, strict) && Fair(s) && m.command.PlayOne? && IsMove(s, m, e, n)
    ensures Tracks(log + [e], base, results + ResultOf(s, m, n), n, strict)
  {
    var seat, card := m.seat, m.command.card;
    var open := CutLog(log).open;
    CardLogged(open, e, s, seat, card, strict);
    var trick := s.trick + [Play(seat, card)];
    if |s.trick| < 3 {
      assert n.tricksWon == s.tricksWon && n.trick == trick && n.bids == s.bids;
      StaysOpen(log, e, base, results, s, n, strict);
      assert results + [] == results;
    } else {
      FourthCard(s, m, e, n);
      LastCardTracks(log, e, base, results, s, seat, card, Taken(s, seat, card), m.deck, n, strict);
    }
  }

  /** The state in which the fourth card of a trick has been taken in. */
  function Taken(s: State, seat: nat, card: Card): State
    requires Playable(s) && |s.trick| == 3 && seat < 4
  {
    TrickTaken(s, s.hands[seat := Without(s.hands[seat], card)], s.trick + [Play(seat, card)],
      s.spadesBroken || card.suit == Spades)
  }

  /** The trick is credited to its winner. */
  predicate TookTrick(s: State, seat: nat, card: Card, taken: State)
    requires Formed(s) && |s.trick| == 3
  {
    var w := TrickWinner(s.trick + [Play(seat, card)]);
    w < 4 && taken.tricksWon == s.tricksWon[w := s.tricksWon[w] + 1]
  }

  /** Either the hand goes on, or it is scored and the event closes it. */
  predicate Concludes(taken: State, deck: seq<Card>, e: Event, n: State)
    requires Formed(taken) && AllBid(taken.bids) && Formed(n)
  {
    if Closes(e) then FinishHand(taken, deck) == Ok(n) && e.scores == Some((n.scores[0], n.scores[1])) else n == taken
  }

  /** What the engine makes of the fourth card, and how that is logged. */
  lemma {:induction false} FourthCard(s: State, m: Issued, e: Event, n: State)
    requires m.command.PlayOne? && IsMove(s, m, e, n) && |s.trick| == 3
    ensures var taken := Taken(s, m.seat, m.command.card);
      && Formed(taken) && Formed(n) && taken.bids == s.bids && taken.trick == [] && taken.scores == s.scores &&
         AllBid(s.bids)
      && Concludes(taken, m.deck, e, n) && TookTrick(s, m.seat, m.command.card, taken)
      && ResultOf(s, m, n) == (if Closes(e) then [HandResult(s.bids, taken.tricksWon, s.scores)] else [])
  {
  }

  lemma {:induction false} LastCardTracks(log: seq<Event>, e: Event, base: seq<seq<Event>>, results: seq<HandResult>,
      s: State, seat: nat, card: Card, taken: State, deck: seq<Card>, n: State, strict: bool)
    requires Tracks(log, base, results, s, strict) && Playable(s) && |s.trick| == 3 && seat < 4 &&
      TookTrick(s, seat, card, taken)
    requires Formed(taken) && Formed(n) && taken.bids == s.bids && taken.trick == [] && taken.scores == s.scores &&
      AllBid(s.bids)
    requires Concludes(taken, deck, e, n)
    requires BidsShown(CutLog(log).open + [e], s.bids, strict)
    requires CardsShown(CardsOf(CutLog(log).open + [e]), Sum4(s.tricksWon), s.tricksWon, s.trick + [Play(seat, card)])
    ensures Tracks(log + [e], base,
      results + (if Closes(e) then [HandResult(s.bids, taken.tricksWon, s.scores)] else []), n, strict)
  {
    TrickShown(CardsOf(CutLog(log).open + [e]), s, seat, card, taken);
    if Closes(e) {
      LastTrickTracks(log, base, results, s, taken, e, deck, n, strict);
    } else {
      StaysOpen(log, e, base, results, s, n, strict);
      assert results + [] == results;
    }
  }

  lemma {:induction false} TrickShown(cards: seq<Seen>, s: State, seat: nat, card: Card, taken: State)
    requires Playable(s) && |s.trick| == 3 && seat < 4 && TookTrick(s, seat, card, taken)
    requires CardsShown(cards, Sum4(s.tricksWon), s.tricksWon, s.trick + [Play(seat, card)])
    ensures |taken.tricksWon| == 4 && CardsShown(cards, Sum4(taken.tricksWon), taken.tricksWon, [])
  {
    TrickIsTaken(cards, Sum4(s.tricksWon), s.tricksWon, s.trick + [Play(seat, card)]);
    assert Sum4(taken.tricksWon) == Sum4(s.tricksWon) + 1;
  }

  /** The last trick of a hand: the hand is closed and scored. */
  lemma {:induction false} LastTrickTracks(log: seq<Event>, base: seq<seq<Event>>, results: seq<HandResult>, s: State,
      taken: State, e: Event, deck: seq<Card>, n: State, strict: bool)
    requires Tracks(log, base, results, s, strict) && Formed(taken) && AllBid(s.bids) && taken.bids == s.bids
    requires FinishHand(taken, deck) == Ok(n) && Closes(e) && Formed(n) && e.scores == Some((n.scores[0], n.scores[1]))
    requires BidsShown(CutLog(log).open + [e], s.bids, strict)
    requires CardsShown(CardsOf(CutLog(log).open + [e]), Sum4(taken.tricksWon), taken.tricksWon, [])
    ensures Tracks(log + [e], base, results + [HandResult(s.bids, taken.tricksWon, s.scores)], n, strict)
  {
    var hand := CutLog(log).open + [e];
    var r := HandResult(s.bids, taken.tricksWon, s.scores);
    forall o: nat | o < 4 ensures TricksOf(hand, o) == taken.tricksWon[o] {
      TricksAtEnd(hand, Sum4(taken.tricksWon), taken.tricksWon, o);
    }
    if Running(n) { FreshHandShows([], n, strict); }
    HandCloses(log, e, base, results, s, r, n, strict);
  }

  lemma {:induction false} EndTracks(log: seq<Event>, e: Event, base: seq<seq<Event>>, results: seq<HandResult>,
      s: State, n: State, strict: bool)
    requires Tracks(log, base, results, s, strict) && !Closes(e) && Formed(n) && n.scores == s.scores &&
      n.phase == Forfeited
    ensures Tracks(log + [e], base, results, n, strict)
  {
    StaysOpen(log, e, base, results, s, n, strict);
  }

  /** The log can follow the move: nothing silent, or, unless `strict`, at most a bid. */
  predicate Heard(s: State, m: Issued, n: State, strict: bool) {
    if strict then !Silent(m, n) else !SilentCard(s, m, n)
  }

  /** A bid made by a timeout is missing from the log, and nothing else is. */
  lemma {:induction false} LateBidTracks(log: seq<Event>, e: Event, base: seq<seq<Event>>, results: seq<HandResult>,
      s: State, m: Issued, n: State)
    requires Tracks(log, base, results, s, false) && Fair(s) && IsMove(s, m, e, n) && Silent(m, n) && s.phase != Playing
    ensures Tracks(log + [e], base, results, n, false) && ResultOf(s, m, n) == []
  {
    LateBid(s, m.deck, n);
    BidOpenShows(CutLog(log).open, e, s, s.current.value, n, false);
    StaysOpen(log, e, base, results, s, n, false);
  }

  /** What a timeout does in the bidding. */
  lemma {:induction false} LateBid(s: State, deck: seq<Card>, n: State)
    requires Playable(s) && s.phase != Playing && Timeout(s, deck) == Ok(n) && n.phase != Forfeited
    ensures s.current.Some? && s.current.value < 4 && s.bids[s.current.value] == None
    ensures n.bids == s.bids[s.current.value := Some(LATE_BID)]
    ensures n.tricksWon == s.tricksWon && n.trick == s.trick && n.scores == s.scores && Formed(n)
  {
    var seat := s.current.value;
    var timeouts := s.timeouts[seat := s.timeouts[seat] + 1];
    var acted := ActFor(s, seat, timeouts[seat] >= MAX_TIMEOUTS, deck);
    assert n == acted.value.(timeouts := timeouts);
  }

  /** Every move but a silent one keeps the log in step; a timeout that forfeits is harmless. */
  lemma {:induction false} MoveTracks(log: seq<Event>, base: seq<seq<Event>>, results: seq<HandResult>, s: State,
      m: Issued, e: Event, n: State, strict: bool)
    requires Tracks(log, base, results, s, strict) && Fair(s) && IsMove(s, m, e, n) && Heard(s, m, n, strict)
    ensures Tracks(log + [e], base, results + ResultOf(s, m, n), n, strict)
  {
    assert results + [] == results;
    match m.command {
      case MakeBid(bid) => BidTracks(log, base, results, s, m.seat, bid, n, strict);
      case PlayOne(card) => PlayTracks(log, base, results, s, m, e, n, strict);
      case GiveUp => EndTracks(log, e, base, results, s, n, strict);
      case ClaimTimeout =>
        if Silent(m, n) {
          LateBidTracks(log, e, base, results, s, m, n);
        } else {
          ForfeitingTimeout(s, m, n);
          EndTracks(log, e, base, results, s, n, strict);
        }
    }
  }

  lemma {:induction false} ForfeitingTimeout(s: State, m: Issued, n: State)
    requires Fair(s) && m.command.ClaimTimeout? && Timeout(s, m.deck) == Ok(n) && n.phase == Forfeited
    ensures n.scores == s.scores && n.handNumber == s.handNumber && ResultOf(s, m, n) == []
  {
    TimeoutActs(s, m.deck, n);
    var limit, acted: State :| ActFor(s, s.current.value, limit, m.deck) == Ok(acted) &&
      n == acted.(timeouts := n.timeouts);
    ActForfeits(s, s.current.value, limit, m.deck, acted);
  }

  lemma {:induction false} ActForfeits(s: State, seat: nat, limit: bool, deck: seq<Card>, n: State)
    requires Playable(s) && seat < 4 && ActFor(s, seat, limit, deck) == Ok(n) && n.phase == Forfeited && Running(s)
    ensures n.scores == s.scores && n.handNumber == s.handNumber
  {
    if !limit && s.phase == Playing { CardEndsHand(s, seat, LegalCards(s, seat)[0], deck, n); }
  }

  /** A timeout acts for the seat whose turn it is, and counts. */
  lemma {:induction false} TimeoutActs(s: State, deck: seq<Card>, n: State)
    requires Playable(s) && Timeout(s, deck) == Ok(n)
    ensures s.current.Some? && s.current.value < 4
    ensures exists limit, acted: State ::
      ActFor(s, s.current.value, limit, deck) == Ok(acted) && n == acted.(timeouts := n.timeouts)
  {
    var seat := s.current.value;
    var timeouts := s.timeouts[seat := s.timeouts[seat] + 1];
    var acted := ActFor(s, seat, timeouts[seat] >= MAX_TIMEOUTS, deck);
    assert n == acted.value.(timeouts := timeouts);
  }

  // ---- every log ---------------------------------------------------------------------------------

  function EventsOf(events: seq<Logged>): seq<Event> {
    seq(|events|, i requires 0 <= i < |events| => events[i].event)
  }

  /** No turn in the moves from `a` up to `b` was bid or played by a timeout. */
  ghost predicate NothingSilent(states: seq<State>, commands: seq<Issued>, a: nat, b: nat)
    requires a <= b <= |commands| && |states| == |commands| + 1
  {
    forall i :: a <= i < b ==> !Silent(commands[i], states[i + 1])
  }

  /** The log can follow the moves from `a` up to `b`; unless `strict`, with bids of timeouts among them. */
  ghost predicate AllHeard(states: seq<State>, commands: seq<Issued>, a: nat, b: nat, strict: bool)
    requires a <= b <= |commands| && |states| == |commands| + 1
  {
    forall i :: a <= i < b ==> Heard(states[i], commands[i], states[i + 1], strict)
  }

  lemma {:induction false} FairThroughout(deck: seq<Card>, dealer: nat, states: seq<State>, commands: seq<Issued>,
      events: seq<Logged>, n: nat)
    requires ValidDeck(deck) && dealer < 4 && IsTrail(states, commands, events) && states[0] == Start(deck, dealer) &&
      n <= |commands|
    ensures Fair(states[n])
  {
    if n == 0 {
      StartIsFair(deck, dealer);
    } else {
      FairThroughout(deck, dealer, states, commands, events, n - 1);
      assert MoveAt(states, commands, events, n - 1);
      PerformKeepsFair(states[n - 1], commands[n - 1].seat, commands[n - 1].command, commands[n - 1].deck);
    }
  }

  lemma {:induction false} EventsGrow(events: seq<Logged>, n: nat)
    requires 0 < n < |events|
    ensures EventsOf(events[..n + 1]) == EventsOf(events[..n]) + [events[n].event]
  {
  }

  lemma {:induction false} MoveIs(states: seq<State>, commands: seq<Issued>, events: seq<Logged>, i: nat)
    requires IsTrail(states, commands, events) && i < |commands|
    ensures IsMove(states[i], commands[i], events[i + 1].event, states[i + 1])
  {
    assert MoveAt(states, commands, events, i);
  }

  lemma {:induction false} NextTracks(before: seq<Event>, base: seq<seq<Event>>, earlier: seq<HandResult>, s: State,
      m: Issued, e: Event, log: seq<Event>, results: seq<HandResult>, n: State, strict: bool)
    requires Tracks(before, base, earlier, s, strict) && Fair(s) && IsMove(s, m, e, n) && Heard(s, m, n, strict)
    requires log == before + [e] && results == earlier + ResultOf(s, m, n)
    ensures Fair(n) && Tracks(log, base, results, n, strict)
  {
    PerformKeepsFair(s, m.seat, m.command, m.deck);
    MoveTracks(before, base, earlier, s, m, e, n, strict);
  }

  lemma {:induction false} TracksOneMore(states: seq<State>, commands: seq<Issued>, events: seq<Logged>,
      base: seq<seq<Event>>, a: nat, n: nat, strict: bool)
    requires IsTrail(states, commands, events) && a < n <= |commands| &&
      Heard(states[n - 1], commands[n - 1], states[n], strict)
    requires Fair(states[n - 1]) &&
      Tracks(EventsOf(events[..n]), base, Results(states, commands, a, n - 1), states[n - 1], strict)
    ensures Fair(states[n]) &&
      Tracks(EventsOf(events[..n + 1]), base, Results(states, commands, a, n), states[n], strict)
  {
    assert MoveAt(states, commands, events, n - 1);
    EventsGrow(events, n);
    NextTracks(EventsOf(events[..n]), base, Results(states, commands, a, n - 1), states[n - 1], commands[n - 1],
      events[n].event,
               EventsOf(events[..n + 1]), Results(states, commands, a, n), states[n], strict);
  }

  /** A stretch of moves without silent ones, begun in step, stays in step. */
  lemma {:induction false} StretchTracks(states: seq<State>, commands: seq<Issued>, events: seq<Logged>,
      base: seq<seq<Event>>, a: nat, n: nat, strict: bool)
    requires IsTrail(states, commands, events) && a <= n <= |commands| && AllHeard(states, commands, a, n, strict)
    requires Fair(states[a]) && Tracks(EventsOf(events[..a + 1]), base, [], states[a], strict)
    ensures Fair(states[n]) &&
      Tracks(EventsOf(events[..n + 1]), base, Results(states, commands, a, n), states[n], strict)
    decreases n
  {
    if n > a {
      StretchTracks(states, commands, events, base, a, n - 1, strict);
      TracksOneMore(states, commands, events, base, a, n, strict);
    }
  }

  lemma {:induction false} FirstEvent(log: seq<Event>, start: State, strict: bool)
    requires Formed(start) && start.scores == [0, 0] && start.bids == [None, None, None, None] &&
      start.tricksWon == [0, 0, 0, 0] && start.trick == []
    requires |log| == 1 && log[0].kind == MatchCreated
    ensures Tracks(log, [], [], start, strict)
  {
    var e := log[0];
    assert log == [] + [e];
    CardsGrow([], e);
    assert log[..0] == [];
    assert CutLog(log) == Cut([], [e]);
    FreshHandShows([e], start, strict);
  }

  lemma {:induction false} ClosedLogTracks(log: seq<Event>, e: Event, n: State, strict: bool)
    requires Closes(e) && Formed(n) && e.scores == Some((n.scores[0], n.scores[1])) &&
      (Running(n) ==> OpenShows([], n, strict))
    ensures Tracks(log + [e], CutLog(log + [e]).closed, [], n, strict)
  {
    assert (log + [e])[..|log|] == log;
    CutIsRight(log + [e]);
    var closed := CutLog(log + [e]).closed;
    assert closed[..|closed|] == closed && closed[|closed|..] == [];
    assert closed[|closed| - 1][|closed[|closed| - 1]| - 1] == e;
  }

  /** A hand that closes with a logged card brings the log back in step, whatever went before. */
  lemma {:induction false} LoggedEndResynchronises(log: seq<Event>, s: State, m: Issued, e: Event, n: State,
      strict: bool)
    requires Fair(s) && m.command.PlayOne? && IsMove(s, m, e, n) && HandEnds(s, n)
    ensures Tracks(log + [e], CutLog(log + [e]).closed, [], n, strict)
  {
    FourthCardEnds(s, m, n);
    if Running(n) { FreshHandShows([], n, strict); }
    ClosedLogTracks(log, e, n, strict);
  }

  lemma {:induction false} FourthCardEnds(s: State, m: Issued, n: State)
    requires Fair(s) && m.command.PlayOne? && m.seat < 4 && PlayCard(s, m.seat, m.command.card, m.deck) == Ok(n) &&
      HandEnds(s, n)
    ensures |s.trick| == 3 && Formed(n)
    ensures Running(n) ==> n.bids == [None, None, None, None] && n.tricksWon == [0, 0, 0, 0] && n.trick == []
  {
  }

  /** The log is in step at the start, and after every hand that closed with a logged card. */
  ghost predicate InStep(states: seq<State>, commands: seq<Issued>, a: nat)
    requires a <= |commands| && |states| == |commands| + 1
  {
    a == 0 || (commands[a - 1].command.PlayOne? && HandEnds(states[a - 1], states[a]))
  }

  ghost predicate Played(deck: seq<Card>, dealer: nat, states: seq<State>, commands: seq<Issued>, events: seq<Logged>) {
    ValidDeck(deck) && dealer < 4 && IsTrail(states, commands, events) && states[0] == Start(deck, dealer)
  }

  lemma {:induction false} InStepTracks(deck: seq<Card>, dealer: nat, states: seq<State>, commands: seq<Issued>,
      events: seq<Logged>, a: nat, strict: bool)
    requires Played(deck, dealer, states, commands, events) && a <= |commands| && InStep(states, commands, a)
    ensures Tracks(EventsOf(events[..a + 1]), CutLog(EventsOf(events[..a + 1])).closed, [], states[a], strict)
  {
    if a == 0 {
      FirstEvent(EventsOf(events[..1]), Start(deck, dealer), strict);
    } else {
      FairThroughout(deck, dealer, states, commands, events, a - 1);
      assert MoveAt(states, commands, events, a - 1);
      EventsGrow(events, a);
      LoggedEndResynchronises(EventsOf(events[..a]), states[a - 1], commands[a - 1], events[a].event, states[a],
        strict);
    }
  }

  /**
   * In every match, timeouts or not: from a point where the log is in step, over any
   * stretch of moves without silent ones, the log keeps step with the engine, hand by
   * hand, card by card and in the scores.
   */
  lemma {:induction false} LogTracksEngine(deck: seq<Card>, dealer: nat, states: seq<State>, commands: seq<Issued>,
      events: seq<Logged>, a: nat, b: nat, strict: bool)
    requires Played(deck, dealer, states, commands, events) && a <= b <= |commands|
    requires InStep(states, commands, a) && AllHeard(states, commands, a, b, strict)
    ensures Tracks(EventsOf(events[..b + 1]), CutLog(EventsOf(events[..a + 1])).closed, Results(states, commands, a, b),
      states[b], strict)
  {
    FairThroughout(deck, dealer, states, commands, events, a);
    InStepTracks(deck, dealer, states, commands, events, a, strict);
    StretchTracks(states, commands, events, CutLog(EventsOf(events[..a + 1])).closed, a, b, strict);
  }

  // ---- what the report says about the engine ----------------------------------------------------------

  predicate KeptNil(r: HandResult, seat: nat) {
    seat < |r.bids| && seat < |r.tricks| && AmountOf(r.bids[seat]) == Some(0) && r.tricks[seat] == 0
  }

  predicate KeptExactly(r: HandResult, seat: nat) {
    seat < |r.bids| && seat < |r.tricks| && r.bids[seat].Some? && r.bids[seat].value.amount > 0 &&
      r.bids[seat].value.amount == r.tricks[seat]
  }

  function NilsKept(results: seq<HandResult>, seat: nat): nat {
    if results == [] then 0
      else NilsKept(results[..|results| - 1], seat) + (if KeptNil(results[|results| - 1], seat) then 1 else 0)
  }

  predicate Behind(r: HandResult, team: nat) {
    |r.before| == 2 && Deficit((r.before[0], r.before[1]), team) >= 200
  }

  /** The bid in the log is the engine's, or it is missing and the engine's is a timeout's. */
  lemma {:induction false} HandReads(hand: seq<Event>, r: HandResult, seat: nat, strict: bool)
    requires HandShows(hand, r, strict) && seat < 4
    ensures NilMade(hand, seat) <==> KeptNil(r, seat)
    ensures (ExactMade(hand, seat) <==> KeptExactly(r, seat)) <==> !(BidOf(hand, seat) == None && r.tricks[seat] == 1)
    ensures BidOf(hand, seat) == None ==> !strict && r.bids[seat] == Some(LATE_BID)
  {
    assert BidShown(hand, seat, r.bids[seat], strict);
  }

  lemma {:induction false} NilsAgree(hands: seq<seq<Event>>, results: seq<HandResult>, seat: nat)
    requires AllShown(hands, results, true) && seat < 4
    ensures NilCount(hands, seat) == NilsKept(results, seat)
    decreases |hands|
  {
    if hands != [] {
      var n := |hands| - 1;
      assert HandShows(hands[n], results[n], true);
      HandReads(hands[n], results[n], seat, true);
      forall i | 0 <= i < n ensures HandShows(hands[..n][i], results[..n][i], true) {
        assert HandShows(hands[i], results[i], true);
      }
      NilsAgree(hands[..n], results[..n], seat);
    }
  }

  /**
   * A match in which no turn was bid or played by a timeout, even if one was forfeited
   * by it: the report on its log counts exactly the nils the engine saw kept, finds an
   * exact bid exactly when a hand had one, and a comeback exactly when the winning
   * team began some hand 200 or more behind.
   */
  lemma {:induction false} ReportIsTrue(deck: seq<Card>, dealer: nat, states: seq<State>, commands: seq<Issued>,
      events: seq<Logged>, seat: nat, winnerTeam: nat, report: Report)
    requires Played(deck, dealer, states, commands, events) && NothingSilent(states, commands, 0, |commands|) &&
      seat < 4
    requires Means(EventsOf(events), seat, seat % 2, winnerTeam, report)
    ensures var results := Results(states, commands, 0, |commands|);
      && report.nils == NilsKept(results, seat)
      && (report.exactBidWin
         <==> seat % 2 == winnerTeam && exists i :: 0 <= i < |results| && KeptExactly(results[i], seat))
      && (report.comebackWin
         <==> seat % 2 == winnerTeam && exists i :: 0 <= i < |results| && Behind(results[i], seat % 2))
  {
    LogTracksEngine(deck, dealer, states, commands, events, 0, |commands|, true);
    FirstEvent(EventsOf(events[..1]), Start(deck, dealer), true);
    assert events[..|commands| + 1] == events;
    var hands, results := CutLog(EventsOf(events)).closed, Results(states, commands, 0, |commands|);
    assert CutLog(EventsOf(events[..1])).closed == [] && hands[0..] == hands;
    NilsAgree(hands, results, seat);
    ExactsAgree(hands, results, seat);
    DeficitsAgree(hands, results, seat % 2);
  }

  lemma {:induction false} ExactsAgree(hands: seq<seq<Event>>, results: seq<HandResult>, seat: nat)
    requires AllShown(hands, results, true) && seat < 4
    ensures AnyExact(hands, seat) <==> exists i :: 0 <= i < |results| && KeptExactly(results[i], seat)
  {
    forall i | 0 <= i < |hands| ensures ExactMade(hands[i], seat) <==> KeptExactly(results[i], seat) {
      assert HandShows(hands[i], results[i], true);
      HandReads(hands[i], results[i], seat, true);
    }
  }

  lemma {:induction false} DeficitsAgree(hands: seq<seq<Event>>, results: seq<HandResult>, team: nat)
    requires AllShown(hands, results, true) && ScoresShown([], hands, results) && NonEmpty(hands)
    ensures Trailed(hands, team) <==> exists i :: 0 <= i < |results| && Behind(results[i], team)
  {
    forall i | 0 <= i < |hands| ensures Deficit(ScoresAfter(hands[..i]), team) >= 200 <==> Behind(results[i], team) {
      assert ShownBefore([], hands, results, i);
      assert [] + hands[..i] == hands[..i];
    }
    if Trailed(hands, team) {
      var i :| 0 <= i < |hands| && Deficit(ScoresAfter(hands[..i]), team) >= 200;
      assert Behind(results[i], team);
    }
    if i :| 0 <= i < |results| && Behind(results[i], team) {
      assert Deficit(ScoresAfter(hands[..i]), team) >= 200;
    }
  }

  // ---- which hands are read right --------------------------------------------------------------------

  /** The moves from `a` up to `b` are one whole hand. */
  ghost predicate OneWholeHand(states: seq<State>, commands: seq<Issued>, a: nat, b: nat)
    requires a < b <= |commands| && |states| == |commands| + 1
  {
    && HandEnds(states[b - 1], states[b])
    && forall i :: a <= i < b - 1 ==> !HandEnds(states[i], states[i + 1])
  }

  lemma {:induction false} OneResult(states: seq<State>, commands: seq<Issued>, a: nat, b: nat)
    requires a < b <= |commands| && |states| == |commands| + 1 && Results(states, commands, a, b - 1) == []
    ensures Results(states, commands, a, b) == ResultOf(states[b - 1], commands[b - 1], states[b])
  {
    assert [] + ResultOf(states[b - 1], commands[b - 1], states[b])
      == ResultOf(states[b - 1], commands[b - 1], states[b]);
  }

  lemma {:induction false} NoResults(states: seq<State>, commands: seq<Issued>, a: nat, n: nat)
    requires a <= n <= |commands| && |states| == |commands| + 1
    requires forall i :: a <= i < n ==> !HandEnds(states[i], states[i + 1])
    ensures Results(states, commands, a, n) == []
    decreases n
  {
    if n > a {
      NoResults(states, commands, a, n - 1);
      NoResultHere(states[n - 1], commands[n - 1], states[n]);
      OneMoreResult(states, commands, a, n);
    }
  }

  lemma {:induction false} NoResultHere(s: State, m: Issued, n: State)
    requires !HandEnds(s, n)
    ensures ResultOf(s, m, n) == []
  {
  }

  lemma {:induction false} OneMoreResult(states: seq<State>, commands: seq<Issued>, a: nat, n: nat)
    requires a < n <= |commands| && |states| == |commands| + 1
    ensures Results(states, commands, a, n)
      == Results(states, commands, a, n - 1) + ResultOf(states[n - 1], commands[n - 1], states[n])
  {
  }

  lemma {:induction false} CardEndsHand(s: State, seat: nat, card: Card, deck: seq<Card>, n: State)
    requires Playable(s) && seat < 4 && PlayCard(s, seat, card, deck) == Ok(n)
    ensures s.phase == Playing && n.phase != Forfeited && (HandEnds(s, n) ==> |s.trick| == 3)
  {
  }

  lemma {:induction false} TimeoutEndsHand(s: State, deck: seq<Card>, n: State)
    requires Playable(s) && Timeout(s, deck) == Ok(n) && HandEnds(s, n)
    ensures |s.trick| == 3 && s.current.Some? && LegalCards(s, s.current.value) != [] && n.phase != Forfeited
  {
    var seat := s.current.value;
    var timeouts := s.timeouts[seat := s.timeouts[seat] + 1];
    var acted := ActFor(s, seat, timeouts[seat] >= MAX_TIMEOUTS, deck);
    assert n == acted.value.(timeouts := timeouts);
    assert timeouts[seat] < MAX_TIMEOUTS;
    CardEndsHand(s, seat, LegalCards(s, seat)[0], deck, acted.value);
  }

  /** A hand ends with a fourth card, played by the player or by a timeout; only the player's is logged as the end. */
  lemma {:induction false} EndsByCard(s: State, m: Issued, e: Event, n: State)
    requires Fair(s) && IsMove(s, m, e, n)
    ensures HandEnds(s, n) ==> |ResultOf(s, m, n)| == 1 && (m.command.PlayOne? || Silent(m, n))
    ensures Closes(e) <==> HandEnds(s, n) && m.command.PlayOne?
  {
    match m.command {
      case PlayOne(card) => CardEndsHand(s, m.seat, card, m.deck, n);
      case ClaimTimeout => if HandEnds(s, n) { TimeoutEndsHand(s, m.deck, n); }
      case _ =>
    }
  }

  lemma {:induction false} LastMoveEndsHand(deck: seq<Card>, dealer: nat, states: seq<State>, commands: seq<Issued>,
      events: seq<Logged>, b: nat)
    requires Played(deck, dealer, states, commands, events) && 0 < b <= |commands| && HandEnds(states[b - 1], states[b])
    ensures |ResultOf(states[b - 1], commands[b - 1], states[b])| == 1
  {
    assert Fair(states[b - 1]) && IsMove(states[b - 1], commands[b - 1], events[b].event, states[b]) by {
      FairThroughout(deck, dealer, states, commands, events, b - 1);
      MoveIs(states, commands, events, b - 1);
    }
    EndsByCard(states[b - 1], commands[b - 1], events[b].event, states[b]);
  }

  /**
   * In every match, timeouts or not: a hand whose cards the players played themselves, and
   * whose predecessor closed with a logged card, is one hand of the log, in which nil and
   * deficit are read as the engine played them. The exact bid of a seat is misread exactly
   * when a timeout bid for the seat, which is a bid of one, and the seat won one trick.
   */
  lemma {:induction false} HandIsReadRight(deck: seq<Card>, dealer: nat, states: seq<State>, commands: seq<Issued>,
      events: seq<Logged>, a: nat, b: nat, seat: nat) returns (hand: seq<Event>, result: HandResult)
    requires Played(deck, dealer, states, commands, events) && a < b <= |commands| && seat < 4
    requires InStep(states, commands, a) && OneWholeHand(states, commands, a, b) &&
      AllHeard(states, commands, a, b, false)
    ensures ResultOf(states[b - 1], commands[b - 1], states[b]) == [result] && |result.bids| == |result.tricks| == 4
    ensures CutLog(EventsOf(events[..b + 1])).closed == CutLog(EventsOf(events[..a + 1])).closed + [hand]
    ensures NilMade(hand, seat) <==> KeptNil(result, seat)
    ensures (ExactMade(hand, seat) <==> KeptExactly(result, seat))
      <==> !(BidOf(hand, seat) == None && result.tricks[seat] == 1)
    ensures BidOf(hand, seat) == None ==> result.bids[seat] == Some(LATE_BID) && !NothingSilent(states, commands, a, b)
    ensures NonEmpty(CutLog(EventsOf(events[..a + 1])).closed)
    ensures forall team: nat ::
      Deficit(ScoresAfter(CutLog(EventsOf(events[..a + 1])).closed), team) >= 200 <==> Behind(result, team)
  {
    result := TheResult(deck, dealer, states, commands, events, a, b);
    var strict := NothingSilent(states, commands, a, b);
    LogTracksEngine(deck, dealer, states, commands, events, a, b, strict);
    hand := OneHandTracked(EventsOf(events[..b + 1]), CutLog(EventsOf(events[..a + 1])).closed, result, states[b], seat,
      strict);
  }

  lemma {:induction false} TheResult(deck: seq<Card>, dealer: nat, states: seq<State>, commands: seq<Issued>,
      events: seq<Logged>, a: nat, b: nat)
      returns (result: HandResult)
    requires Played(deck, dealer, states, commands, events) && a < b <= |commands| &&
      OneWholeHand(states, commands, a, b)
    ensures Results(states, commands, a, b) == ResultOf(states[b - 1], commands[b - 1], states[b]) == [result]
  {
    NoResults(states, commands, a, b - 1);
    OneResult(states, commands, a, b);
    LastMoveEndsHand(deck, dealer, states, commands, events, b);
    result := ResultOf(states[b - 1], commands[b - 1], states[b])[0];
  }

  /** What being in step for one result says about the one hand that was added. */
  lemma {:induction false} OneHandTracked(log: seq<Event>, base: seq<seq<Event>>, result: HandResult, s: State,
      seat: nat, strict: bool)
      returns (hand: seq<Event>)
    requires Tracks(log, base, [result], s, strict) && seat < 4
    ensures CutLog(log).closed == base + [hand] && HandShows(hand, result, strict)
    ensures NilMade(hand, seat) <==> KeptNil(result, seat)
    ensures (ExactMade(hand, seat) <==> KeptExactly(result, seat))
      <==> !(BidOf(hand, seat) == None && result.tricks[seat] == 1)
    ensures BidOf(hand, seat) == None ==> !strict && result.bids[seat] == Some(LATE_BID)
    ensures NonEmpty(base) && forall team: nat :: Deficit(ScoresAfter(base), team) >= 200 <==> Behind(result, team)
  {
    var closed := CutLog(log).closed;
    var hands := closed[|base|..];
    assert |hands| == 1 && closed == base + hands && hands == [hands[0]];
    assert HandShows(hands[0], [result][0], strict) && ShownBefore(base, hands, [result], 0);
    assert base + hands[..0] == base;
    hand := hands[0];
    HandReads(hand, result, seat, strict);
  }

  // ---- how many hands the log has ---------------------------------------------------------------------

  /** No hand up to move `n` was ended by a timeout. */
  ghost predicate EndsLogged(states: seq<State>, commands: seq<Issued>, n: nat)
    requires n <= |commands| && |states| == |commands| + 1
  {
    forall i :: 0 <= i < n && HandEnds(states[i], states[i + 1]) ==> commands[i].command.PlayOne?
  }

  lemma {:induction false} OneMoreEnd(states: seq<State>, commands: seq<Issued>, n: nat)
    requires 0 < n <= |commands| && |states| == |commands| + 1
    ensures EndsLogged(states, commands, n) <==>
      EndsLogged(states, commands, n - 1) && (HandEnds(states[n - 1], states[n]) ==> commands[n - 1].command.PlayOne?)
  {
  }

  /**
   * The log has at most as many hands as the engine finished, and exactly as many if
   * and only if none was ended by a timeout: such a hand never closes in the log and
   * runs on into the next one.
   */
  lemma {:induction false} HandsAreAllThereExactlyWhen(deck: seq<Card>, dealer: nat, states: seq<State>,
      commands: seq<Issued>, events: seq<Logged>, n: nat)
    requires Played(deck, dealer, states, commands, events) && n <= |commands|
    ensures var hands := |CutLog(EventsOf(events[..n + 1])).closed|; var played := |Results(states, commands, 0, n)|;
      hands <= played && (hands == played <==> EndsLogged(states, commands, n))
  {
    if n == 0 {
      FirstEvent(EventsOf(events[..1]), Start(deck, dealer), true);
    } else {
      HandsAreAllThereExactlyWhen(deck, dealer, states, commands, events, n - 1);
      FairThroughout(deck, dealer, states, commands, events, n - 1);
      assert MoveAt(states, commands, events, n - 1);
      var log, e := EventsOf(events[..n]), events[n].event;
      EndsByCard(states[n - 1], commands[n - 1], e, states[n]);
      EventsGrow(events, n);
      assert (log + [e])[..|log|] == log;
      OneMoreEnd(states, commands, n);
    }
  }

  /** A hand that a timeout ends stays open in the log. */
  lemma {:induction false} SilentEndMergesHands(log: seq<Event>, s: State, m: Issued, e: Event, n: State)
    requires Fair(s) && IsMove(s, m, e, n) && HandEnds(s, n) && !m.command.PlayOne?
    ensures CutLog(log + [e]) == Cut(CutLog(log).closed, CutLog(log).open + [e])
  {
    EndsByCard(s, m, e, n);
    assert (log + [e])[..|log|] == log;
  }
}
