/** What each move does and is worth. */
module PlayRules {
  // The rules of play, stated apart from the engine: who may move, what the move changes,
  // what a hand is worth and when the match is over.
  import opened Common
  import opened GameEvents
  import opened MatchCommands
  import opened SpadesEngine

  // ---- what a hand is worth --------------------------------------------------------------

  /** A nil bid gains its bonus if the seat took no trick and otherwise costs it; other bids are no nil. */
  function NilWorth(bid: Bid, tricks: nat): int {
    if bid.amount != 0 then 0
    else if tricks == 0 then (if bid.blindNil then 200 else 100)
    else if bid.blindNil then -200 else -100
  }

  function Overtricks(bid: int, tricks: int): nat {
    if tricks <= bid then 0 else tricks - bid
  }

  /** A set contract loses ten per trick bid; a made one gains ten per trick bid and one per overtrick. */
  function ContractWorth(bid: int, tricks: int): int {
    if tricks < bid then 0 - 10 * bid else 10 * bid + Overtricks(bid, tricks)
  }

  /** Points and bags of a side after a hand: every ten bags cost a hundred points. */
  predicate Scores(a: Bid, b: Bid, ta: nat, tb: nat, points: int, bags: nat, after: int, left: nat) {
    var all := bags + Overtricks(a.amount + b.amount, ta + tb);
    && left == all % 10
    && after == points + ContractWorth(a.amount + b.amount, ta + tb) + NilWorth(a, ta) + NilWorth(b, tb)
                - 100 * (all / 10)
  }

  lemma {:induction false} ScoreIsRight(a: Bid, b: Bid, ta: nat, tb: nat, points: int, bags: nat)
    requires a.amount >= 0 && b.amount >= 0
    ensures var r := ScoreTeam(a, b, ta, tb, points, bags); Scores(a, b, ta, tb, points, bags, r.points, r.bags)
  {
    var bid := a.amount + b.amount;
    PenaltyIsExact(points + ContractWorth(bid, ta + tb) + NilWorth(a, ta) + NilWorth(b, tb),
      bags + Overtricks(bid, ta + tb));
  }

  /**
   * Without nils a set contract costs exactly ten per trick bid and adds no bag; a made one
   * pays ten per trick bid and one per overtrick, less a hundred for each ten bags reached.
   */
  lemma {:induction false} ContractIsPaid(a: Bid, b: Bid, ta: nat, tb: nat, points: int, bags: nat)
    requires a.amount > 0 && b.amount > 0 && bags < 10
    ensures var r := ScoreTeam(a, b, ta, tb, points, bags); var bid := a.amount + b.amount;
      && (ta + tb < bid ==> r == Score(points - 10 * bid, bags))
      && (ta + tb >= bid ==> var over := ta + tb - bid;
            r.bags == (bags + over) % 10 && r.points == points + 10 * bid + over - 100 * ((bags + over) / 10))
  {
    ScoreIsRight(a, b, ta, tb, points, bags);
  }

  /** A nil adds its bonus, 200 if blind and 100 otherwise, if and only if the seat took no trick, and else costs it. */
  lemma {:induction false} NilIsPaid(a: Bid, b: Bid, ta: nat, tb: nat, points: int, bags: nat)
    requires a.amount == 0 && b.amount > 0 && tb == b.amount && bags < 10
    ensures var r := ScoreTeam(a, b, ta, tb, points, bags); var bonus := if a.blindNil then 200 else 100;
      && (r.points + 100 * ((bags + ta) / 10) - points - 10 * b.amount - ta == bonus <==> ta == 0)
      && (ta > 0 ==> r.points + 100 * ((bags + ta) / 10) == points + 10 * b.amount + ta - bonus)
  {
    ScoreIsRight(a, b, ta, tb, points, bags);
  }

  // ---- the end of a hand --------------------------------------------------------------------

  /** Seats 0 and 2 score for side 0, seats 1 and 3 for side 1. */
  predicate SideScored(s: State, n: State, side: nat)
    requires Formed(s) && AllBid(s.bids) && Formed(n) && side < 2
  {
    Scores(s.bids[side].value, s.bids[side + 2].value, s.tricksWon[side], s.tricksWon[side + 2], s.scores[side],
           s.bags[side], n.scores[side], n.bags[side])
  }

  /** A side has 500 and the other has not as much. */
  predicate Won(scores: seq<int>)
    requires |scores| == 2
  {
    (scores[0] >= 500 || scores[1] >= 500) && scores[0] != scores[1]
  }

  /** Card `k` of the deck lies in the hand of the seat `k` places on from the dealer's left. */
  ghost predicate DealtRound(hands: seq<seq<Card>>, deck: seq<Card>, dealer: nat) {
    |hands| == 4 && (forall s: nat :: s < 4 ==> |hands[s]| == 13) && |deck| == 52 &&
      forall k: nat {:trigger deck[k]} :: k < 52 ==> hands[(dealer + 1 + k) % 4][k / 4] == deck[k]
  }

  /** The next hand: dealt from the dealer's left, who bids first. */
  ghost predicate NewHand(s: State, deck: seq<Card>, n: State) {
    && n.phase == Bidding && n.handNumber == s.handNumber + 1 && n.dealer == (s.dealer + 1) % 4
    && n.current == Some((s.dealer + 2) % 4) && !n.spadesBroken && n.trick == []
    && n.bids == [None, None, None, None] && n.tricksWon == [0, 0, 0, 0] && n.winner == s.winner
    && DealtRound(n.hands, deck, n.dealer)
  }

  ghost predicate HandEnded(s: State, deck: seq<Card>, n: State)
    requires Formed(s) && AllBid(s.bids)
  {
    && Formed(n) && SideScored(s, n, 0) && SideScored(s, n, 1) && n.version == s.version && n.timeouts == s.timeouts
    && (if Won(n.scores) then
          && n.phase == Completed && n.current == None && n.trick == []
          && n.winner == Some(if n.scores[0] > n.scores[1] then 0 else 1)
        else NewHand(s, deck, n))
  }

  lemma {:induction false} DealtFirst(deck: seq<Card>, dealer: nat, n: nat, k: nat)
    requires k < n <= |deck|
    ensures var hands := DealFirst(deck, dealer, n);
      k / 4 < |hands[(dealer + 1 + k) % 4]| && hands[(dealer + 1 + k) % 4][k / 4] == deck[k]
  {
    DealOneMore(deck, dealer, n);
    if k < n - 1 {
      DealtFirst(deck, dealer, n - 1, k);
    } else {
      DealtSoFar(deck, dealer, k);
    }
  }

  lemma {:induction false} DealtSoFar(deck: seq<Card>, dealer: nat, k: nat)
    requires k < |deck|
    ensures |DealFirst(deck, dealer, k)[(dealer + 1 + k) % 4]| == k / 4
  {
    DealtRounds(deck, dealer, k / 4, k % 4);
    var hands, seat := DealFirst(deck, dealer, k), (dealer + 1 + k) % 4;
    SeatOfCard(dealer, k);
    assert |hands[seat]| == k / 4 + if (seat + 4 - (dealer + 1) % 4) % 4 < k % 4 then 1 else 0;
  }

  lemma {:induction false} SeatOfCard(dealer: nat, k: nat)
    ensures ((dealer + 1 + k) % 4 + 4 - (dealer + 1) % 4) % 4 == k % 4
  {
  }

  lemma {:induction false} DealGoesRound(deck: seq<Card>, dealer: nat)
    requires ValidDeck(deck)
    ensures DealtRound(Deal(deck, dealer), deck, dealer)
  {
    DealIsFair(deck, dealer);
    forall k: nat | k < 52 ensures Deal(deck, dealer)[(dealer + 1 + k) % 4][k / 4] == deck[k] {
      DealtFirst(deck, dealer, 52, k);
    }
  }

  /** The first hand: nothing scored, and the dealer's left bids first. */
  lemma {:induction false} StartIsRight(deck: seq<Card>, dealer: nat)
    requires ValidDeck(deck) && dealer < 4
    ensures var s := Start(deck, dealer);
      && s.phase == Bidding && s.handNumber == 1 && s.version == 1 && s.dealer == dealer
      && s.current == Some((dealer + 1) % 4) && !s.spadesBroken && s.trick == [] && s.winner == None
      && s.bids == [None, None, None, None] && s.tricksWon == [0, 0, 0, 0] && s.timeouts == [0, 0, 0, 0]
      && s.scores == [0, 0] && s.bags == [0, 0] && DealtRound(s.hands, deck, dealer)
  {
    DealGoesRound(deck, dealer);
  }

  lemma {:induction false} HandEndsRight(s: State, deck: seq<Card>)
    requires Formed(s) && AllBid(s.bids) && BidsLegal(s) && ValidDeck(deck)
    ensures FinishHand(s, deck).Ok? && HandEnded(s, deck, FinishHand(s, deck).value)
  {
    ScoreIsRight(s.bids[0].value, s.bids[2].value, s.tricksWon[0], s.tricksWon[2], s.scores[0], s.bags[0]);
    ScoreIsRight(s.bids[1].value, s.bids[3].value, s.tricksWon[1], s.tricksWon[3], s.scores[1], s.bags[1]);
    DealGoesRound(deck, (s.dealer + 1) % 4);
  }

  // ---- a bid ------------------------------------------------------------------------------------

  predicate MayBid(s: State, seat: nat, bid: Bid) {
    s.phase == Bidding && s.current == Some(seat) && 0 <= bid.amount <= 13 && (bid.blindNil ==> bid.amount == 0)
  }

  /** The fourth bid opens play at the dealer's left; any other passes the turn on. */
  ghost predicate BidMade(s: State, seat: nat, bid: Bid, n: State)
    requires Formed(s) && seat < 4
  {
    var last := forall o: nat :: o < 4 && o != seat ==> s.bids[o].Some?;
    n == s.(version := s.version + 1, bids := s.bids[seat := Some(bid)],
            phase := if last then Playing else Bidding,
            current := Some(if last then (s.dealer + 1) % 4 else (seat + 1) % 4))
  }

  lemma {:induction false} LastToBid(bids: seq<Option<Bid>>, seat: nat, bid: Bid)
    requires |bids| == 4 && seat < 4
    ensures AllBid(bids[seat := Some(bid)]) <==> forall o: nat :: o < 4 && o != seat ==> bids[o].Some?
  {
    var after := bids[seat := Some(bid)];
    forall o: nat | o < 4 && o != seat ensures after[o] == bids[o] {}
  }

  lemma {:induction false} BidIsRight(s: State, seat: nat, bid: Bid)
    requires Fair(s) && seat < 4
    ensures PlaceBid(s, seat, bid).Ok? <==> MayBid(s, seat, bid)
    ensures PlaceBid(s, seat, bid).Ok? ==> BidMade(s, seat, bid, PlaceBid(s, seat, bid).value)
  {
    if s.phase == Bidding && s.current == Some(seat) {
      var k: nat :| BidInTurn(s, k);
      assert s.bids[Turn(s.dealer, k)].None?;
      LastToBid(s.bids, seat, bid);
    }
  }

  // ---- a card -------------------------------------------------------------------------------------

  /** Follow suit if possible; lead no spade before spades are broken while another suit is held. */
  ghost predicate Legal(s: State, seat: nat, card: Card)
    requires Formed(s) && seat < 4
  {
    && card in s.hands[seat]
    && (s.trick != [] && (exists c :: c in s.hands[seat] && c.suit == s.trick[0].card.suit) ==>
          card.suit == s.trick[0].card.suit)
    && (s.trick == [] && !s.spadesBroken && card.suit == Spades ==>
          forall c :: c in s.hands[seat] ==> c.suit == Spades)
  }

  ghost predicate MayPlay(s: State, seat: nat, card: Card)
    requires Formed(s) && seat < 4
  {
    s.phase == Playing && s.current == Some(seat) && Legal(s, seat, card)
  }

  /** The card is taken out of the player's hand, and no other hand changes. */
  ghost predicate Leaves(before: seq<seq<Card>>, seat: nat, card: Card, after: seq<seq<Card>>)
    requires |before| == 4 && seat < 4
  {
    exists i: nat :: i < |before[seat]| && TakenAt(before, seat, card, after, i)
  }

  predicate TakenAt(before: seq<seq<Card>>, seat: nat, card: Card, after: seq<seq<Card>>, i: nat)
    requires |before| == 4 && seat < 4 && i < |before[seat]|
  {
    before[seat][i] == card && after == before[seat := before[seat][..i] + before[seat][i + 1..]]
  }

  /** The trick with this card on it. */
  function Table(s: State, seat: nat, card: Card): seq<Play> {
    s.trick + [Play(seat, card)]
  }

  /** The state with the trick given to the seat that won it, who leads next. */
  function Given(s: State, taker: nat, card: Card, hands: seq<seq<Card>>): State
    requires Formed(s) && taker < 4
  {
    s.(version := s.version + 1, hands := hands, trick := [],
       tricksWon := s.tricksWon[taker := s.tricksWon[taker] + 1],
       spadesBroken := s.spadesBroken || card.suit == Spades, current := Some(taker))
  }

  /** The fourth card: the highest card of the deciding suit takes the trick; after the last trick the hand ends. */
  ghost predicate TrickEnds(s: State, seat: nat, card: Card, deck: seq<Card>, hands: seq<seq<Card>>, w: nat, n: State)
    requires Formed(s) && AllBid(s.bids) && |s.trick| == 3 && AllSeated(Table(s, seat, card)) && w < 4 && |hands| == 4
  {
    var given := Given(s, Table(s, seat, card)[w].seat, card, hands);
    Wins(Table(s, seat, card), w) &&
      if forall o :: 0 <= o < |hands| ==> hands[o] == [] then HandEnded(given, deck, n) else n == given
  }

  ghost predicate CardPlayed(s: State, seat: nat, card: Card, deck: seq<Card>, n: State)
    requires Formed(s) && AllBid(s.bids) && seat < 4 && AllSeated(s.trick)
  {
    exists hands :: Leaves(s.hands, seat, card, hands) &&
      if |s.trick| == 3 then exists w: nat :: w < 4 && TrickEnds(s, seat, card, deck, hands, w, n)
      else n == s.(version := s.version + 1, hands := hands, trick := Table(s, seat, card),
                   spadesBroken := s.spadesBroken || card.suit == Spades, current := Some((seat + 1) % 4))
  }

  lemma {:induction false} TakenOut(hand: seq<Card>, card: Card) returns (i: nat)
    requires card in hand && multiset(hand)[card] == 1
    ensures i < |hand| && hand[i] == card && Without(hand, card) == hand[..i] + hand[i + 1..]
  {
    assert hand == [hand[0]] + hand[1..];
    if hand[0] == card {
      i := 0;
      WithoutNone(hand[1..], card);
    } else {
      var j := TakenOut(hand[1..], card);
      i := j + 1;
      assert hand[..i] + hand[i + 1..] == [hand[0]] + (hand[1..][..j] + hand[1..][j + 1..]);
    }
  }

  lemma {:induction false} HandAfter(s: State, seat: nat, card: Card)
    requires Fair(s) && s.phase == Playing && seat < 4 && card in s.hands[seat]
    ensures Leaves(s.hands, seat, card, s.hands[seat := Without(s.hands[seat], card)])
  {
    var deck, played :| Accounted(s, deck, played);
    OneCopy(s, deck, played, seat, card);
    var i := TakenOut(s.hands[seat], card);
    assert TakenAt(s.hands, seat, card, s.hands[seat := Without(s.hands[seat], card)], i);
  }

  lemma {:induction false} FourthCard(s: State, seat: nat, card: Card, deck: seq<Card>) returns (w: nat)
    requires Fair(s) && seat < 4 && ValidDeck(deck) && MayPlay(s, seat, card) && |s.trick| == 3
    ensures PlayCard(s, seat, card, deck).Ok?
    ensures var hands := s.hands[seat := Without(s.hands[seat], card)];
      w < 4 && TrickEnds(s, seat, card, deck, hands, w, PlayCard(s, seat, card, deck).value)
  {
    var trick, hands := Table(s, seat, card), s.hands[seat := Without(s.hands[seat], card)];
    w := BestOf(trick, 4);
    TrickWinnerIsRight(trick, w);
    var taken := TrickTaken(s, hands, trick, s.spadesBroken || card.suit == Spades);
    assert taken == Given(s, trick[w].seat, card, hands);
    FourthCardIs(s, seat, card, deck, hands, taken);
    if HandOver(hands) { HandEndsRight(taken, deck); }
  }

  lemma {:induction false} FourthCardIs(s: State, seat: nat, card: Card, deck: seq<Card>, hands: seq<seq<Card>>,
      taken: State)
    requires Fair(s) && seat < 4 && MayPlay(s, seat, card) && |s.trick| == 3
    requires hands == s.hands[seat := Without(s.hands[seat], card)]
    requires taken == TrickTaken(s, hands, Table(s, seat, card), s.spadesBroken || card.suit == Spades)
    ensures Formed(taken) && AllBid(taken.bids)
    ensures PlayCard(s, seat, card, deck) == if HandOver(hands) then FinishHand(taken, deck) else Ok(taken)
  {
    LegalExactly(s, seat, card);
  }

  /** A card is accepted exactly when it is the player's turn and the card is legal, and then does this and no more. */
  lemma {:induction false} CardIsRight(s: State, seat: nat, card: Card, deck: seq<Card>)
    requires Fair(s) && seat < 4 && ValidDeck(deck)
    ensures PlayCard(s, seat, card, deck).Ok? <==> MayPlay(s, seat, card)
    ensures MayPlay(s, seat, card) ==> CardPlayed(s, seat, card, deck, PlayCard(s, seat, card, deck).value)
  {
    if s.phase == Playing && s.current == Some(seat) {
      LegalExactly(s, seat, card);
      if MayPlay(s, seat, card) {
        HandAfter(s, seat, card);
        if |s.trick| == 3 { var w := FourthCard(s, seat, card, deck); }
      }
    }
  }

  // ---- running out of time, giving up -------------------------------------------------------------------

  /** The other side wins. */
  predicate GivenUp(s: State, seat: nat, n: State) {
    n == s.(version := s.version + 1, phase := Forfeited, current := None,
      winner := Some(if seat % 2 == 0 then 1 else 0))
  }

  lemma {:induction false} GivingUpIsRight(s: State, seat: nat)
    ensures Forfeit(s, seat).Ok? <==> s.phase != Completed && s.phase != Forfeited
    ensures Forfeit(s, seat).Ok? ==> GivenUp(s, seat, Forfeit(s, seat).value)
  {
  }

  /** The first card in the hand that may be played. */
  ghost predicate FirstLegal(s: State, seat: nat, card: Card)
    requires Formed(s) && seat < 4
  {
    exists i: nat :: i < |s.hands[seat]| && s.hands[seat][i] == card && Legal(s, seat, card) &&
      forall j: nat :: j < i ==> !Legal(s, seat, s.hands[seat][j])
  }

  /** The third time out forfeits; before that the seat bids one or plays its first legal card. */
  ghost predicate ActedFor(s: State, seat: nat, deck: seq<Card>, n: State)
    requires Formed(s) && seat < 4 && AllSeated(s.trick)
  {
    if s.timeouts[seat] >= 2 then GivenUp(s, seat, n)
    else if s.phase == Bidding then BidMade(s, seat, Bid(1, false), n)
    else AllBid(s.bids) && exists card :: FirstLegal(s, seat, card) && CardPlayed(s, seat, card, deck, n)
  }

  ghost predicate TimedOut(s: State, deck: seq<Card>, n: State)
    requires Formed(s) && AllSeated(s.trick)
  {
    && s.current.Some? && s.current.value < 4
    && n.timeouts == s.timeouts[s.current.value := s.timeouts[s.current.value] + 1]
    && ActedFor(s, s.current.value, deck, n.(timeouts := s.timeouts))
  }

  lemma {:induction false} SuitOrder(hand: seq<Card>, suit: Suit) returns (i: nat)
    requires OfSuit(hand, suit) != []
    ensures i < |hand| && hand[i] == OfSuit(hand, suit)[0] && forall j :: 0 <= j < i ==> hand[j].suit != suit
  {
    if hand[0].suit == suit {
      i := 0;
    } else {
      var k := SuitOrder(hand[1..], suit);
      i := k + 1;
      forall j | 0 <= j < i ensures hand[j].suit != suit { if j > 0 { assert hand[1..][j - 1] == hand[j]; } }
    }
  }

  lemma {:induction false} OthersOrder(hand: seq<Card>) returns (i: nat)
    requires NonSpades(hand) != []
    ensures i < |hand| && hand[i] == NonSpades(hand)[0] && forall j :: 0 <= j < i ==> hand[j].suit == Spades
  {
    if hand[0].suit != Spades {
      i := 0;
    } else {
      var k := OthersOrder(hand[1..]);
      i := k + 1;
      forall j | 0 <= j < i ensures hand[j].suit == Spades { if j > 0 { assert hand[1..][j - 1] == hand[j]; } }
    }
  }

  lemma {:induction false} FirstOfLegal(s: State, seat: nat)
    requires Formed(s) && seat < 4 && s.phase == Playing && s.current == Some(seat) && s.hands[seat] != []
    ensures LegalCards(s, seat) != [] && FirstLegal(s, seat, LegalCards(s, seat)[0])
  {
    var hand := s.hands[seat];
    var card := LegalCards(s, seat)[0];
    LegalExactly(s, seat, card);
    var i: nat := 0;
    if s.trick != [] && OfSuit(hand, s.trick[0].card.suit) != [] {
      i := SuitOrder(hand, s.trick[0].card.suit);
    } else if s.trick == [] && !s.spadesBroken && NonSpades(hand) != [] {
      i := OthersOrder(hand);
    }
    assert hand[i] == card;
    forall j: nat | j < i ensures !Legal(s, seat, hand[j]) { LegalExactly(s, seat, hand[j]); }
  }

  /** A running match always accepts a timeout of the seat to act, which does this and no more. */
  lemma {:induction false} TimeoutIsRight(s: State, deck: seq<Card>)
    requires Fair(s) && ValidDeck(deck)
    ensures Timeout(s, deck).Ok? <==> Running(s)
    ensures Running(s) ==> TimedOut(s, deck, Timeout(s, deck).value)
  {
    if Running(s) {
      var seat := s.current.value;
      var timeouts := s.timeouts[seat := s.timeouts[seat] + 1];
      var acted := ActFor(s, seat, timeouts[seat] >= MAX_TIMEOUTS, deck);
      ActingIsRight(s, seat, deck);
      TimeoutActs(s, deck, seat, timeouts, acted);
    }
  }

  lemma {:induction false} ActingIsRight(s: State, seat: nat, deck: seq<Card>)
    requires Fair(s) && Running(s) && s.current == Some(seat) && ValidDeck(deck)
    ensures var acted := ActFor(s, seat, s.timeouts[seat] + 1 >= MAX_TIMEOUTS, deck);
      acted.Ok? && acted.value.timeouts == s.timeouts && ActedFor(s, seat, deck, acted.value)
  {
    if s.timeouts[seat] >= 2 {
    } else if s.phase == Bidding {
      BidIsRight(s, seat, Bid(1, false));
    } else {
      PlayingForIsRight(s, seat, deck);
    }
  }

  lemma {:induction false} PlayingForIsRight(s: State, seat: nat, deck: seq<Card>)
    requires Fair(s) && s.phase == Playing && s.current == Some(seat) && ValidDeck(deck) && s.timeouts[seat] < 2
    ensures var acted := ActFor(s, seat, false, deck);
      acted.Ok? && acted.value.timeouts == s.timeouts && ActedFor(s, seat, deck, acted.value)
  {
    var card := LegalCards(s, seat)[0];
    FirstOfLegal(s, seat);
    assert CardPlayed(s, seat, card, deck, PlayCard(s, seat, card, deck).value) by { CardIsRight(s, seat, card, deck); }
    CardKeepsTimeouts(s, seat, card, deck, PlayCard(s, seat, card, deck).value);
  }

  lemma {:induction false} CardKeepsTimeouts(s: State, seat: nat, card: Card, deck: seq<Card>, n: State)
    requires Formed(s) && AllBid(s.bids) && seat < 4 && AllSeated(s.trick) && CardPlayed(s, seat, card, deck, n)
    ensures n.timeouts == s.timeouts
  {
  }

  // ---- commands ------------------------------------------------------------------------------------------

  /** A blind nil needs an unseen hand, and a timeout claim a turn whose deadline has passed. */
  ghost predicate MayDo(g: Game, seat: nat, r: Request)
    requires Fits(g) && seat < 4
  {
    match r.command
    case MakeBid(bid) => MayBid(g.state, seat, bid) && (bid.blindNil ==> g.revealed[seat] < g.state.handNumber)
    case PlayOne(card) => MayPlay(g.state, seat, card)
    case ClaimTimeout => Running(g.state) && r.late
    case GiveUp => Running(g.state)
  }

  ghost predicate Does(s: State, seat: nat, c: Command, deck: seq<Card>, n: State)
    requires Playable(s) && seat < 4
  {
    match c
    case MakeBid(bid) => BidMade(s, seat, bid, n)
    case PlayOne(card) => s.phase == Playing && CardPlayed(s, seat, card, deck, n)
    case ClaimTimeout => TimedOut(s, deck, n)
    case GiveUp => GivenUp(s, seat, n)
  }

  lemma {:induction false} PerformIsRight(s: State, seat: nat, c: Command, deck: seq<Card>)
    requires Fair(s) && seat < 4 && ValidDeck(deck)
    ensures Perform(s, seat, c, deck).Ok? <==>
      match c
      case MakeBid(bid) => MayBid(s, seat, bid)
      case PlayOne(card) => MayPlay(s, seat, card)
      case _ => Running(s)
    ensures Perform(s, seat, c, deck).Ok? ==> Does(s, seat, c, deck, Perform(s, seat, c, deck).value)
  {
    match c {
      case MakeBid(bid) => BidIsRight(s, seat, bid);
      case PlayOne(card) => CardIsRight(s, seat, card, deck);
      case ClaimTimeout => TimeoutIsRight(s, deck);
      case GiveUp => GivingUpIsRight(s, seat);
    }
  }

  /** What the log says of the command: the bid, the card and what it completed with the scores after it, or the end. */
  ghost predicate Tells(s: State, n: State, seat: nat, c: Command, e: Event) {
    match c
    case MakeBid(bid) => e == Event(BidPlaced, Some(seat), Some(bid.amount), None, None)
    case PlayOne(card) =>
      && e.seat == Some(seat) && e.bid == None && e.card == Some(card)
      && |n.scores| == 2 && e.scores == Some((n.scores[0], n.scores[1]))
      && (e.kind == MatchCompleted <==> n.winner.Some?)
      && (e.kind == HandCompleted <==> n.winner.None? && n.handNumber == s.handNumber + 1)
      && (e.kind == TrickCompleted <==> n.winner.None? && n.handNumber == s.handNumber && |s.trick| == 3)
      && e.kind in {MatchCompleted, HandCompleted, TrickCompleted, Kind.CardPlayed}
    case ClaimTimeout => e == Event(TurnTimedOut, None, None, None, None)
    case GiveUp => e == Event(PlayerForfeited, Some(seat), None, None, None)
  }

  lemma {:induction false} EventIsRight(s: State, seat: nat, c: Command, deck: seq<Card>)
    requires Fair(s) && seat < 4 && ValidDeck(deck) && Perform(s, seat, c, deck).Ok?
    ensures var n := Perform(s, seat, c, deck).value; Formed(n) && Tells(s, n, seat, c, EventFor(s, n, seat, c))
  {
    PerformKeepsFair(s, seat, c, deck);
    PerformIsRight(s, seat, c, deck);
  }

  /** The first seat of the user. */
  predicate SitsAt(g: Game, user: UserId, seat: nat) {
    seat < |g.players| && g.players[seat] == user && forall i :: 0 <= i < seat ==> g.players[i] != user
  }

  /**
   * A command goes through exactly when a seated player with a valid entry sends it, under
   * a new key, against the current version, and the rules allow it to that seat; it then
   * does to the match what the rules say and leaves one command row and one event.
   */
  lemma {:induction false} CommandIsRight(start: State, g: Game, r: Request, seat: nat)
    requires Consistent(start, g) && ValidDeck(r.deck) && SitsAt(g, r.user, seat)
    ensures Submit(g, r).Done? <==>
      && r.authorized && r.expected == g.version && MayDo(g, seat, r)
      && forall i :: 0 <= i < |g.commands| ==> !(g.commands[i].user == r.user && g.commands[i].key == r.key)
    ensures Submit(g, r).Done? ==> var n := Submit(g, r).game;
      && Does(g.state, seat, r.command, r.deck, n.state) && n.version == g.version + 1
      && n.players == g.players && n.revealed == g.revealed
      && n.commands == g.commands + [Issued(r.user, r.key, g.version, n.version, seat, r.command, r.deck)]
      && |n.events| == |g.events| + 1 && n.events[..|g.events|] == g.events
      && n.events[|g.events|].sequence == n.version && n.events[|g.events|].actor == Some(r.user)
      && Tells(g.state, n.state, seat, r.command, n.events[|g.events|].event)
  {
    SitsFirst(g.players, r.user, 0, seat);
    assert Fair(g.state) && g.state.version == g.version;
    if Perform(g.state, seat, r.command, r.deck).Ok? { EventIsRight(g.state, seat, r.command, r.deck); }
    PerformIsRight(g.state, seat, r.command, r.deck);
    SubmitIs(g, r, seat);
  }

  lemma {:induction false} SitsFirst(players: seq<UserId>, user: UserId, from: nat, seat: nat)
    requires from <= seat < |players| && players[seat] == user && forall i :: from <= i < seat ==> players[i] != user
    ensures SeatOf(players, user, from) == Some(seat)
    decreases seat - from
  {
    if from < seat { SitsFirst(players, user, from + 1, seat); }
  }

  lemma {:induction false} SubmitIs(g: Game, r: Request, seat: nat)
    requires Fits(g) && seat < 4 && SeatOf(g.players, r.user, 0) == Some(seat) && Fair(g.state)
    ensures Submit(g, r).Done? <==>
      r.authorized && !Used(g.commands, r.user, r.key) && EarlyRefusal(g, r, seat) == None &&
        Perform(g.state, seat, r.command, r.deck).Ok?
    ensures Submit(g, r).Done? ==> var n := Perform(g.state, seat, r.command, r.deck).value;
      Submit(g, r).game == Applied(g, r, seat, n) && n.version == g.state.version + 1
  {
    if Perform(g.state, seat, r.command, r.deck).Ok? { PerformKeepsFair(g.state, seat, r.command, r.deck); }
  }

  /** Nobody else can send a command. */
  lemma {:induction false} OnlyPlayersCommand(start: State, g: Game, r: Request)
    requires Consistent(start, g) && forall i :: 0 <= i < |g.players| ==> g.players[i] != r.user
    ensures Submit(g, r) == Refused(NotSeated)
  {
    var found := SeatOf(g.players, r.user, 0);
  }

  /**
   * A disqualification forfeits a running match for the other side with one event, and leaves any other match alone.
   */
  lemma {:induction false} ExpulsionIsRight(start: State, g: Game, user: UserId)
    requires Consistent(start, g)
    ensures user !in g.players || g.state.phase in {Completed, Forfeited} ==> After(g, Disqualify(user)) == g
    ensures forall seat: nat :: SitsAt(g, user, seat) && g.state.phase !in {Completed, Forfeited} ==>
      var n := After(g, Disqualify(user));
      && GivenUp(g.state, seat, n.state) && n.version == g.version + 1
      && n.players == g.players && n.revealed == g.revealed && n.commands == g.commands
      && n.events == g.events + [Logged(n.version, None, Event(PlayerForfeited, Some(seat), None, None, None))]
  {
    forall seat: nat | SitsAt(g, user, seat) ensures SeatOf(g.players, user, 0) == Some(seat) {
      SitsFirst(g.players, user, 0, seat);
    }
  }

  /** A new match is at version 1 with the event of its creation, no command and no hand revealed. */
  lemma {:induction false} OpeningIsRight(players: seq<UserId>, deck: seq<Card>, dealer: nat)
    requires |players| == 4 && ValidDeck(deck) && dealer < 4
    ensures var g := Opening(players, deck, dealer);
      && g.players == players && g.revealed == [0, 0, 0, 0] && g.version == 1 && g.commands == []
      && g.events == [Logged(1, Some(players[0]), Event(MatchCreated, None, None, None, None))]
      && Formed(g.state) && g.state.version == 1 && g.state.scores == [0, 0] && g.state.phase == Bidding
      && g.state.current == Some((dealer + 1) % 4)
  {
    StartIsRight(deck, dealer);
  }
}
