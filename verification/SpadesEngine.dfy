/** The partnership spades engine: bids, legal cards, tricks, scoring, timeouts and forfeits. */
module SpadesEngine {
  import opened Common
  import opened Sorting

  datatype Suit = Clubs | Diamonds | Hearts | Spades

  /** `rank` counts from 0 (a two) to 12 (an ace). */
  datatype Card = Card(rank: nat, suit: Suit)

  datatype Bid = Bid(amount: int, blindNil: bool)
  datatype Play = Play(seat: nat, card: Card)
  datatype Phase = Bidding | Playing | Completed | Forfeited

  datatype State = State(
    version: nat,
    phase: Phase,
    handNumber: nat,
    dealer: nat,
    current: Option<nat>,
    spadesBroken: bool,
    bids: seq<Option<Bid>>,
    hands: seq<seq<Card>>,
    trick: seq<Play>,
    tricksWon: seq<nat>,
    scores: seq<int>,
    bags: seq<nat>,
    timeouts: seq<nat>,
    winner: Option<nat>)

  datatype RuleError = WrongPhase | NotYourTurn | BadBid | AlreadyBid | NotInHand | NotLegal | Ended | NoTurn | BadDeck

  const WINNING_SCORE := 500
  const NIL_BONUS := 100
  const BLIND_NIL_BONUS := 200
  const BAG_PENALTY_AT := 10
  const BAG_PENALTY := 100
  const MAX_TIMEOUTS := 3

  // ---- dealing ---------------------------------------------------------------------

  predicate ValidDeck(deck: seq<Card>) {
    && |deck| == 52
    && (forall i :: 0 <= i < |deck| ==> deck[i].rank < 13)
    && (forall i, j :: 0 <= i < j < |deck| ==> deck[i] != deck[j])
  }

  function NextSeat(seat: nat): nat {
    (seat + 1) % 4
  }

  /** The hands after the first `n` cards, dealt one at a time from the dealer's left. */
  function DealFirst(deck: seq<Card>, dealer: nat, n: nat): (hands: seq<seq<Card>>)
    requires n <= |deck|
    ensures |hands| == 4
  {
    if n == 0 then [[], [], [], []]
    else
      var hands := DealFirst(deck, dealer, n - 1);
      var seat := (dealer + n) % 4;
      hands[seat := hands[seat] + [deck[n - 1]]]
  }

  function Deal(deck: seq<Card>, dealer: nat): (hands: seq<seq<Card>>)
    ensures |hands| == 4
  {
    DealFirst(deck, dealer, |deck|)
  }

  /** All cards in the four hands. */
  function Held(hands: seq<seq<Card>>): multiset<Card>
    requires |hands| == 4
  {
    multiset(hands[0]) + multiset(hands[1]) + multiset(hands[2]) + multiset(hands[3])
  }

  lemma {:induction false} HeldAfterDealing(hands: seq<seq<Card>>, seat: nat, card: Card)
    requires |hands| == 4 && seat < 4
    ensures Held(hands[seat := hands[seat] + [card]]) == Held(hands) + multiset{card}
  {
    assert multiset(hands[seat] + [card]) == multiset(hands[seat]) + multiset{card};
    HeldAfter(hands, seat, hands[seat] + [card]);
  }

  lemma {:induction false} HeldAfter(hands: seq<seq<Card>>, seat: nat, hand: seq<Card>)
    requires |hands| == 4 && seat < 4
    ensures Held(hands[seat := hand]) + multiset(hands[seat]) == Held(hands) + multiset(hand)
  {
  }

  /** One card on top of a seat's hand. */
  function DealtTo(hands: seq<seq<Card>>, seat: nat, card: Card): (after: seq<seq<Card>>)
    requires |hands| == 4 && seat < 4
    ensures |after| == 4
  {
    hands[seat := hands[seat] + [card]]
  }

  lemma {:induction false} DealOneMore(deck: seq<Card>, dealer: nat, n: nat)
    requires 0 < n <= |deck|
    ensures DealFirst(deck, dealer, n) == DealtTo(DealFirst(deck, dealer, n - 1), (dealer + n) % 4, deck[n - 1])
  {
  }

  lemma {:induction false} TakeOneMore(deck: seq<Card>, n: nat)
    requires 0 < n <= |deck|
    ensures multiset(deck[..n]) == multiset(deck[..n - 1]) + multiset{deck[n - 1]}
  {
    assert deck[..n] == deck[..n - 1] + [deck[n - 1]];
  }

  lemma {:induction false} HeldOneMore(before: seq<seq<Card>>, after: seq<seq<Card>>, seat: nat, deck: seq<Card>,
      n: nat)
    requires 0 < n <= |deck| && |before| == 4 && seat < 4 && after == DealtTo(before, seat, deck[n - 1])
    requires Held(before) == multiset(deck[..n - 1])
    ensures Held(after) == multiset(deck[..n])
  {
    HeldAfterDealing(before, seat, deck[n - 1]);
    TakeOneMore(deck, n);
  }

  lemma {:induction false} NothingHeld()
    ensures Held([[], [], [], []]) == multiset{}
  {
  }

  lemma {:induction false} DealtCards(deck: seq<Card>, dealer: nat, n: nat)
    requires n <= |deck|
    ensures Held(DealFirst(deck, dealer, n)) == multiset(deck[..n])
  {
    if n == 0 {
      NothingHeld();
      assert deck[..0] == [];
    } else {
      DealtCards(deck, dealer, n - 1);
      DealOneMore(deck, dealer, n);
      HeldOneMore(DealFirst(deck, dealer, n - 1), DealFirst(deck, dealer, n), (dealer + n) % 4, deck, n);
    }
  }

  /** The first `extra` seats from `seat` on hold one card more than the others. */
  predicate AllHold(hands: seq<seq<Card>>, k: nat, seat: nat, extra: nat) {
    |hands| == 4 && forall o :: 0 <= o < 4 ==> |hands[o]| == k + if (o + 4 - seat % 4) % 4 < extra then 1 else 0
  }

  lemma {:induction false} OneHoldsMore(hands: seq<seq<Card>>, k: nat, seat: nat, extra: nat, card: Card)
    requires AllHold(hands, k, seat, extra) && extra < 4
    ensures AllHold(DealtTo(hands, (seat + extra) % 4, card), k, seat, extra + 1)
  {
  }

  /** After `n` cards, dealt from the dealer's left on. */
  lemma {:induction false} DealtRounds(deck: seq<Card>, dealer: nat, k: nat, extra: nat)
    requires 4 * k + extra <= |deck| && extra <= 4
    ensures AllHold(DealFirst(deck, dealer, 4 * k + extra), k, dealer + 1, extra)
    decreases k, extra
  {
    if extra > 0 {
      DealtRounds(deck, dealer, k, extra - 1);
      DealOneMore(deck, dealer, 4 * k + extra);
      SameSeat(dealer, k, extra);
      OneHoldsMore(DealFirst(deck, dealer, 4 * k + extra - 1), k, dealer + 1, extra - 1, deck[4 * k + extra - 1]);
    } else if k > 0 {
      DealtRounds(deck, dealer, k - 1, 4);
      FullRound(DealFirst(deck, dealer, 4 * k), k - 1, dealer + 1);
    }
  }

  lemma {:induction false} SameSeat(dealer: nat, k: nat, extra: nat)
    requires extra > 0
    ensures (dealer + (4 * k + extra)) % 4 == (dealer + 1 + (extra - 1)) % 4
  {
  }

  lemma {:induction false} FullRound(hands: seq<seq<Card>>, k: nat, seat: nat)
    requires AllHold(hands, k, seat, 4)
    ensures AllHold(hands, k + 1, seat, 0)
  {
  }

  /** A deal hands out every card once, thirteen to each seat. */
  lemma {:induction false} DealIsFair(deck: seq<Card>, dealer: nat)
    requires ValidDeck(deck)
    ensures Held(Deal(deck, dealer)) == multiset(deck)
    ensures forall s :: 0 <= s < 4 ==> |Deal(deck, dealer)[s]| == 13
  {
    DealtCards(deck, dealer, 52);
    DealtRounds(deck, dealer, 13, 0);
    assert deck[..52] == deck;
  }

  /** Fisher-Yates with the given random draws: a rearrangement of the deck. */
  method ShuffleDeck(deck: seq<Card>, draws: seq<nat>) returns (shuffled: array<Card>)
    requires |draws| == |deck| && forall i :: 0 <= i < |draws| ==> draws[i] <= i
    ensures fresh(shuffled) && multiset(shuffled[..]) == multiset(deck)
  {
    shuffled := new Card[|deck|](i requires 0 <= i < |deck| => deck[i]);
    assert shuffled[..] == deck;
    var index := |deck| - 1;
    while index > 0
      invariant -1 <= index < |deck| == shuffled.Length
      invariant multiset(shuffled[..]) == multiset(deck)
    {
      var swapWith := draws[index];
      shuffled[index], shuffled[swapWith] := shuffled[swapWith], shuffled[index];
      index := index - 1;
    }
  }

  function Start(deck: seq<Card>, dealer: nat): State {
    State(1, Bidding, 1, dealer, Some(NextSeat(dealer)), false, [None, None, None, None], Deal(deck, dealer), [],
          [0, 0, 0, 0], [0, 0], [0, 0], [0, 0, 0, 0], None)
  }

  // ---- bidding -------------------------------------------------------------------------

  predicate Formed(s: State) {
    |s.bids| == 4 && |s.hands| == 4 && |s.tricksWon| == 4 && |s.timeouts| == 4 && |s.scores| == 2 && |s.bags| == 2 &&
      s.dealer < 4
  }

  predicate AllBid(bids: seq<Option<Bid>>) {
    forall i :: 0 <= i < |bids| ==> bids[i].Some?
  }

  function PlaceBid(s: State, seat: nat, bid: Bid): (outcome: Result<State, RuleError>)
    requires Formed(s) && seat < 4
    ensures outcome.Ok? ==> Formed(outcome.value)
  {
    if s.phase != Bidding then Err(WrongPhase)
    else if s.current != Some(seat) then Err(NotYourTurn)
    else if !(0 <= bid.amount <= 13) || (bid.blindNil && bid.amount != 0) then Err(BadBid)
    else if s.bids[seat].Some? then Err(AlreadyBid)
    else
      var bids := s.bids[seat := Some(bid)];
      Ok(s.(version := s.version + 1,
            phase := if AllBid(bids) then Playing else s.phase,
            bids := bids,
            current := Some(if AllBid(bids) then NextSeat(s.dealer) else NextSeat(seat))))
  }

  // ---- legal cards -------------------------------------------------------------------------

  function OfSuit(hand: seq<Card>, suit: Suit): (r: seq<Card>)
    ensures forall c :: c in r <==> c in hand && c.suit == suit
  {
    if hand == [] then []
    else if hand[0].suit == suit then [hand[0]] + OfSuit(hand[1..], suit)
    else OfSuit(hand[1..], suit)
  }

  function NonSpades(hand: seq<Card>): (r: seq<Card>)
    ensures forall c :: c in r <==> c in hand && c.suit != Spades
  {
    if hand == [] then []
    else if hand[0].suit != Spades then [hand[0]] + NonSpades(hand[1..])
    else NonSpades(hand[1..])
  }

  function LegalCards(s: State, seat: nat): seq<Card>
    requires Formed(s) && seat < 4
  {
    if s.phase != Playing || s.current != Some(seat) then []
    else
      var hand := s.hands[seat];
      if s.trick != [] then
        var following := OfSuit(hand, s.trick[0].card.suit);
        if following != [] then following else hand
      else if s.spadesBroken then hand
      else
        var nonSpades := NonSpades(hand);
        if nonSpades != [] then nonSpades else hand
  }

  /**
   * Holding the lead suit obliges to follow; an unbroken spade may be led only from a hand of spades; nothing else is
   * forbidden.
   */
  lemma {:induction false} LegalExactly(s: State, seat: nat, card: Card)
    requires Formed(s) && seat < 4 && s.phase == Playing && s.current == Some(seat)
    ensures card in LegalCards(s, seat) <==>
      && card in s.hands[seat]
      && (s.trick != [] && (exists c :: c in s.hands[seat] && c.suit == s.trick[0].card.suit) ==>
         card.suit == s.trick[0].card.suit)
      && (s.trick == [] && !s.spadesBroken && card.suit == Spades ==> forall c :: c in s.hands[seat] ==>
         c.suit == Spades)
    ensures s.hands[seat] != [] ==> LegalCards(s, seat) != []
  {
    var hand := s.hands[seat];
    if s.trick != [] {
      var following := OfSuit(hand, s.trick[0].card.suit);
      assert following != [] ==> following[0] in following;
    } else {
      assert NonSpades(hand) != [] ==> NonSpades(hand)[0] in NonSpades(hand);
    }
  }

  // ---- tricks ----------------------------------------------------------------------------------

  /** One step of the engine's fold over the plays of a trick. */
  function Beats(winner: Card, play: Card, lead: Suit): bool {
    if play.suit == Spades && winner.suit != Spades then true
    else if play.suit != winner.suit then false
    else if play.rank > winner.rank then true
    else winner.suit != Spades && play.suit == lead && winner.suit != lead
  }

  function BestOf(trick: seq<Play>, n: nat): (w: nat)
    requires 1 <= n <= |trick|
    ensures w < n
  {
    if n == 1 then 0
    else
      var w := BestOf(trick, n - 1);
      if Beats(trick[w].card, trick[n - 1].card, trick[0].card.suit) then n - 1 else w
  }

  function TrickWinner(trick: seq<Play>): nat
    requires |trick| == 4
  {
    trick[BestOf(trick, 4)].seat
  }

  /** The suit that decides a trick: spades if one was played, otherwise the suit led. */
  function Deciding(trick: seq<Play>): Suit
    requires trick != []
  {
    if exists i :: 0 <= i < |trick| && trick[i].card.suit == Spades then Spades else trick[0].card.suit
  }

  /** `w` holds the highest card of the deciding suit, the first of them if a card were repeated. */
  predicate Wins(trick: seq<Play>, w: nat)
    requires trick != []
  {
    && w < |trick|
    && trick[w].card.suit == Deciding(trick)
    && (forall i :: 0 <= i < |trick| && trick[i].card.suit == Deciding(trick) ==>
          trick[i].card.rank < trick[w].card.rank || (trick[i].card.rank == trick[w].card.rank && w <= i))
  }

  lemma {:induction false} BestWins(trick: seq<Play>, n: nat)
    requires 1 <= n <= |trick|
    ensures Wins(trick[..n], BestOf(trick, n))
  {
    if n > 1 {
      BestWins(trick, n - 1);
      var before, after := trick[..n - 1], trick[..n];
      assert after == before + [trick[n - 1]];
      assert Deciding(after) == if trick[n - 1].card.suit == Spades then Spades else Deciding(before);
    }
  }

  /** The highest spade wins, or without spades the highest card of the suit led; the winner is unique. */
  lemma {:induction false} TrickWinnerIsRight(trick: seq<Play>, w: nat)
    requires |trick| == 4
    ensures Wins(trick, w) <==> w == BestOf(trick, 4)
  {
    BestWins(trick, 4);
    assert trick[..4] == trick;
  }

  // ---- scoring -----------------------------------------------------------------------------------

  datatype Score = Score(points: int, bags: nat)

  function NilPoints(bid: Bid, tricks: nat): int {
    if bid.amount != 0 then 0
    else (if tricks == 0 then 1 else -1) * (if bid.blindNil then BLIND_NIL_BONUS else NIL_BONUS)
  }

  /** The loop that turns every ten bags into a penalty. */
  function PenaliseBags(points: int, bags: nat): Score
    decreases bags
  {
    if bags >= BAG_PENALTY_AT then PenaliseBags(points - BAG_PENALTY, bags - BAG_PENALTY_AT) else Score(points, bags)
  }

  lemma {:induction false} PenaltyIsExact(points: int, bags: nat)
    ensures PenaliseBags(points, bags) == Score(points - BAG_PENALTY * (bags / 10), bags % 10)
    decreases bags
  {
    if bags >= BAG_PENALTY_AT { PenaltyIsExact(points - BAG_PENALTY, bags - BAG_PENALTY_AT); }
  }

  /** `scoreTeam` for the partners with bids `a`, `b` and tricks `ta`, `tb`. */
  function ScoreTeam(a: Bid, b: Bid, ta: nat, tb: nat, points: int, bags: nat): Score {
    var contract := a.amount + b.amount;
    var made := ta + tb >= contract;
    var overtricks: nat := if made && contract >= 0 then ta + tb - contract else 0;
    PenaliseBags(points + (if made then contract * 10 + overtricks else -contract * 10) + NilPoints(a, ta) +
      NilPoints(b, tb),
                 bags + overtricks)
  }

  // ---- playing --------------------------------------------------------------------------------------

  /** The hand without the card. */
  function Without(hand: seq<Card>, card: Card): seq<Card> {
    if hand == [] then []
    else if hand[0] == card then Without(hand[1..], card)
    else [hand[0]] + Without(hand[1..], card)
  }

  function StartNextHand(s: State, deck: seq<Card>): Result<State, RuleError> {
    if !ValidDeck(deck) then Err(BadDeck)
    else
      var dealer := NextSeat(s.dealer);
      Ok(s.(phase := Bidding, handNumber := s.handNumber + 1, dealer := dealer, current := Some(NextSeat(dealer)),
        spadesBroken := false,
            bids := [None, None, None, None], hands := Deal(deck, dealer), trick := [], tricksWon := [0, 0, 0, 0]))
  }

  function FinishHand(s: State, deck: seq<Card>): Result<State, RuleError>
    requires Formed(s) && AllBid(s.bids)
  {
    var zero := ScoreTeam(s.bids[0].value, s.bids[2].value, s.tricksWon[0], s.tricksWon[2], s.scores[0], s.bags[0]);
    var one := ScoreTeam(s.bids[1].value, s.bids[3].value, s.tricksWon[1], s.tricksWon[3], s.scores[1], s.bags[1]);
    var scored := s.(scores := [zero.points, one.points], bags := [zero.bags, one.bags]);
    if (zero.points >= WINNING_SCORE || one.points >= WINNING_SCORE) && zero.points != one.points then
      Ok(scored.(phase := Completed, current := None, trick := [],
        winner := Some(if zero.points > one.points then 0 else 1)))
    else
      StartNextHand(scored, deck)
  }

  predicate HandOver(hands: seq<seq<Card>>) {
    forall i :: 0 <= i < |hands| ==> hands[i] == []
  }

  /** The state once a fourth card has been played and the trick taken. */
  function TrickTaken(s: State, hands: seq<seq<Card>>, trick: seq<Play>, broken: bool): State
    requires Formed(s) && |trick| == 4 && |hands| == 4
    requires forall i :: 0 <= i < 4 ==> trick[i].seat < 4
  {
    var winner := TrickWinner(trick);
    s.(version := s.version + 1, hands := hands, trick := [],
      tricksWon := s.tricksWon[winner := s.tricksWon[winner] + 1],
       spadesBroken := broken, current := Some(winner))
  }

  function PlayCard(s: State, seat: nat, card: Card, deck: seq<Card>): (outcome: Result<State, RuleError>)
    requires Playable(s) && seat < 4
    ensures outcome.Ok? ==> Formed(outcome.value)
  {
    if s.phase != Playing then Err(WrongPhase)
    else if s.current != Some(seat) then Err(NotYourTurn)
    else if card !in s.hands[seat] then Err(NotInHand)
    else if card !in LegalCards(s, seat) then Err(NotLegal)
    else
      var hands := s.hands[seat := Without(s.hands[seat], card)];
      var trick := s.trick + [Play(seat, card)];
      var broken := s.spadesBroken || card.suit == Spades;
      if |trick| < 4 then
        Ok(s.(version := s.version + 1, hands := hands, trick := trick, spadesBroken := broken,
          current := Some(NextSeat(seat))))
      else
        var taken := TrickTaken(s, hands, trick, broken);
        if HandOver(hands) then FinishHand(taken, deck) else Ok(taken)
  }

  predicate AllSeated(trick: seq<Play>) {
    forall i :: 0 <= i < |trick| ==> trick[i].seat < 4
  }

  /** What every command may assume of the snapshot it reads. */
  predicate Playable(s: State) {
    && Formed(s) && AllSeated(s.trick) && |s.trick| < 4
    && (s.phase == Playing ==> AllBid(s.bids))
    && (s.current.Some? ==> s.current.value < 4)
  }

  // ---- forfeits and timeouts ------------------------------------------------------------------------

  function Forfeit(s: State, seat: nat): Result<State, RuleError> {
    if s.phase == Completed || s.phase == Forfeited then Err(Ended)
    else Ok(s.(version := s.version + 1, phase := Forfeited, current := None,
      winner := Some(if seat % 2 == 0 then 1 else 0)))
  }

  /** What is done for a seat whose turn ran out: forfeit at the limit, bid one, or play the first legal card. */
  function ActFor(s: State, seat: nat, limit: bool, deck: seq<Card>): (outcome: Result<State, RuleError>)
    requires Playable(s) && seat < 4
    ensures outcome.Ok? ==> Formed(outcome.value)
  {
    if limit then Forfeit(s, seat)
    else if s.phase == Bidding then PlaceBid(s, seat, Bid(1, false))
    else if s.phase == Playing then
      if LegalCards(s, seat) == [] then Err(NotLegal) else PlayCard(s, seat, LegalCards(s, seat)[0], deck)
    else Err(Ended)
  }

  function Timeout(s: State, deck: seq<Card>): Result<State, RuleError>
    requires Playable(s)
  {
    if s.current == None then Err(NoTurn)
    else
      var seat := s.current.value;
      var timeouts := s.timeouts[seat := s.timeouts[seat] + 1];
      match ActFor(s, seat, timeouts[seat] >= MAX_TIMEOUTS, deck)
      case Ok(n) => Ok(n.(timeouts := timeouts))
      case Err(why) => Err(why)
  }

  // ---- what always holds ------------------------------------------------------------------------------

  function Sum4(t: seq<nat>): nat
    requires |t| == 4
  {
    t[0] + t[1] + t[2] + t[3]
  }

  function TrickCards(trick: seq<Play>): multiset<Card> {
    if trick == [] then multiset{} else TrickCards(trick[..|trick| - 1]) + multiset{trick[|trick| - 1].card}
  }

  /** The seat that acts `i` turns after the dealer's left neighbour. */
  function Turn(dealer: nat, i: nat): (seat: nat)
    ensures seat < 4
  {
    (dealer + 1 + i) % 4
  }

  /** `k` bids have been made; the bidding goes round from the dealer's left. */
  predicate BidInTurn(s: State, k: nat)
    requires Formed(s)
  {
    && k < 4
    && s.current == Some(Turn(s.dealer, k))
    && FirstBid(s.bids, s.dealer, k)
  }

  predicate FirstBid(bids: seq<Option<Bid>>, dealer: nat, k: nat)
    requires |bids| == 4
  {
    forall i: nat :: i < 4 ==> (bids[Turn(dealer, i)].Some? <==> i < k)
  }

  predicate BidsLegal(s: State)
    requires Formed(s)
  {
    forall i :: 0 <= i < 4 && s.bids[i].Some? ==> 0 <= s.bids[i].value.amount <= 13
  }

  /** Who has played to the current trick: `|trick|` seats in turn, ending before the current one. */
  predicate PlayedInTurn(s: State)
    requires Formed(s)
  {
    && |s.trick| < 4 && s.current.Some? && s.current.value < 4
    && (forall i :: 0 <= i < |s.trick| ==> s.trick[i].seat == (s.current.value + 4 - |s.trick| + i) % 4)
  }

  predicate HasPlayed(trick: seq<Play>, seat: nat) {
    exists i :: 0 <= i < |trick| && trick[i].seat == seat
  }

  /** Every seat still holds one card per trick to come. */
  predicate HandSizes(s: State)
    requires Formed(s)
  {
    forall seat: nat :: seat < 4 ==>
      |s.hands[seat]| + (if HasPlayed(s.trick, seat) then 1 else 0) + Sum4(s.tricksWon) == 13
  }

  predicate Running(s: State) {
    s.phase == Bidding || s.phase == Playing
  }

  /** The shape of a stored snapshot. */
  ghost predicate Sound(s: State) {
    && Formed(s) && s.bags[0] < 10 && s.bags[1] < 10
    && BidsLegal(s) && Playable(s)
    && (forall i :: 0 <= i < 4 ==> s.timeouts[i] <= MAX_TIMEOUTS && (Running(s) ==> s.timeouts[i] < MAX_TIMEOUTS))
    && (s.phase == Bidding ==>
       s.trick == [] && s.tricksWon == [0, 0, 0, 0] && HandSizes(s) && exists k :: BidInTurn(s, k))
    && (s.phase == Playing ==> AllBid(s.bids) && PlayedInTurn(s) && HandSizes(s) && Sum4(s.tricksWon) < 13)
    && (s.phase == Completed ==> Decided(s) && Sum4(s.tricksWon) == 13)
    && (Running(s) <==> s.winner == None) && (Running(s) <==> s.current.Some?)
    && (s.winner.Some? ==> s.winner.value < 2)
  }

  /** A played-out match was won at 500 or more, by the strictly higher score. */
  predicate Decided(s: State)
    requires Formed(s)
  {
    && s.winner.Some? && s.winner.value < 2
    && s.scores[s.winner.value] >= WINNING_SCORE
    && s.scores[s.winner.value] > s.scores[1 - s.winner.value]
  }

  /** The cards of this hand: each is in a hand, in the trick, or was played to an earlier trick. */
  ghost predicate Accounted(s: State, deck: seq<Card>, played: multiset<Card>)
    requires Formed(s)
  {
    ValidDeck(deck) && Held(s.hands) + TrickCards(s.trick) + played == multiset(deck)
  }

  /** A snapshot the engine can reach. */
  ghost predicate Fair(s: State) {
    Sound(s) && (Running(s) ==> exists deck, played :: Accounted(s, deck, played))
  }

  lemma {:induction false} StartIsFair(deck: seq<Card>, dealer: nat)
    requires ValidDeck(deck) && dealer < 4
    ensures Fair(Start(deck, dealer))
  {
    DealIsFair(deck, dealer);
    assert BidInTurn(Start(deck, dealer), 0);
    assert Accounted(Start(deck, dealer), deck, multiset{});
  }

  // ---- bids keep it ----------------------------------------------------------------------------------

  lemma {:induction false} TurnsCover(dealer: nat, seat: nat) returns (i: nat)
    requires dealer < 4 && seat < 4
    ensures i < 4 && Turn(dealer, i) == seat
  {
    i := (seat + 7 - dealer) % 4;
  }

  lemma {:induction false} TurnsDiffer(dealer: nat, i: nat, j: nat)
    requires dealer < 4 && i < 4 && j < 4 && i != j
    ensures Turn(dealer, i) != Turn(dealer, j)
  {
  }

  lemma {:induction false} NextTurn(dealer: nat, k: nat)
    requires dealer < 4 && k < 4
    ensures NextSeat(Turn(dealer, k)) == Turn(dealer, k + 1)
    ensures NextSeat(dealer) == Turn(dealer, 0)
  {
  }

  /** One more bid in turn; the fourth one completes the bidding. */
  lemma {:induction false} OneMoreBid(bids: seq<Option<Bid>>, dealer: nat, k: nat, bid: Bid)
    requires |bids| == 4 && dealer < 4 && k < 4 && FirstBid(bids, dealer, k)
    ensures var after := bids[Turn(dealer, k) := Some(bid)];
      FirstBid(after, dealer, k + 1) && (AllBid(after) <==> k == 3)
  {
    var after := bids[Turn(dealer, k) := Some(bid)];
    forall i: nat | i < 4 ensures after[Turn(dealer, i)].Some? <==> i < k + 1 {
      if i != k { TurnsDiffer(dealer, i, k); }
    }
    if k == 3 {
      forall other | 0 <= other < 4 ensures after[other].Some? {
        var i := TurnsCover(dealer, other);
      }
    } else {
      assert after[Turn(dealer, 3)].None?;
    }
  }

  /** The bid that follows in turn: the fourth opens play, any other passes the turn on. */
  lemma {:induction false} BidGoesRound(s: State, seat: nat, bid: Bid, k: nat)
    requires Sound(s) && s.phase == Bidding && seat < 4 && BidInTurn(s, k) && PlaceBid(s, seat, bid).Ok?
    ensures var n := PlaceBid(s, seat, bid).value;
      && Formed(n)
      && (k == 3 <==> n.phase == Playing) && (k == 3 ==> AllBid(n.bids) && n.current == Some(NextSeat(s.dealer)))
      && (k < 3 ==> n.phase == Bidding && BidInTurn(n, k + 1))
  {
    OneMoreBid(s.bids, s.dealer, k, bid);
    NextTurn(s.dealer, k);
  }

  lemma {:induction false} BidKeepsFair(s: State, seat: nat, bid: Bid)
    requires Fair(s) && seat < 4 && PlaceBid(s, seat, bid).Ok?
    ensures Fair(PlaceBid(s, seat, bid).value)
  {
    var n := PlaceBid(s, seat, bid).value;
    var k: nat :| BidInTurn(s, k);
    BidGoesRound(s, seat, bid, k);
    assert n.phase == Bidding ==> BidInTurn(n, k + 1);
    var deck, played :| Accounted(s, deck, played);
    assert Accounted(n, deck, played);
  }

  // ---- plays keep it -----------------------------------------------------------------------------------

  lemma {:induction false} WithoutOne(hand: seq<Card>, card: Card)
    ensures multiset(Without(hand, card)) == multiset(hand)[card := 0]
    ensures multiset(hand)[card] == 1 ==> |Without(hand, card)| == |hand| - 1
  {
    if hand != [] {
      WithoutOne(hand[1..], card);
      assert hand == [hand[0]] + hand[1..];
      if hand[0] == card && multiset(hand)[card] == 1 {
        WithoutNone(hand[1..], card);
      }
    }
  }

  lemma {:induction false} WithoutNone(hand: seq<Card>, card: Card)
    requires card !in hand
    ensures Without(hand, card) == hand
  {
    if hand != [] { WithoutNone(hand[1..], card); }
  }

  lemma {:induction false} OneCopy(s: State, deck: seq<Card>, played: multiset<Card>, seat: nat, card: Card)
    requires Formed(s) && Accounted(s, deck, played) && seat < 4 && card in s.hands[seat]
    ensures multiset(s.hands[seat])[card] == 1
  {
    OneOccurrence(deck, card);
    assert multiset(s.hands[seat])[card] <= Held(s.hands)[card] <= multiset(deck)[card];
  }

  lemma {:induction false} HeldWithout(hands: seq<seq<Card>>, seat: nat, card: Card)
    requires |hands| == 4 && seat < 4 && multiset(hands[seat])[card] == 1
    ensures Held(hands[seat := Without(hands[seat], card)]) + multiset{card} == Held(hands)
    ensures |Without(hands[seat], card)| == |hands[seat]| - 1
  {
    var hand := Without(hands[seat], card);
    WithoutOne(hands[seat], card);
    HeldAfter(hands, seat, hand);
    assert multiset(hand) + multiset{card} == multiset(hands[seat]);
  }

  /** The card leaves the hand for the trick; nothing else moves. */
  lemma {:induction false} CardMoves(s: State, deck: seq<Card>, played: multiset<Card>, seat: nat, card: Card)
    requires Formed(s) && Accounted(s, deck, played) && seat < 4 && card in s.hands[seat]
    ensures var hands := s.hands[seat := Without(s.hands[seat], card)];
      && |hands[seat]| == |s.hands[seat]| - 1
      && Held(hands) + TrickCards(s.trick + [Play(seat, card)]) + played == multiset(deck)
  {
    OneCopy(s, deck, played, seat, card);
    HeldWithout(s.hands, seat, card);
    var trick := s.trick + [Play(seat, card)];
    assert trick[..|trick| - 1] == s.trick;
  }

  ghost predicate PlaysOut(s: State, seat: nat, card: Card) {
    Fair(s) && seat < 4 && s.phase == Playing && s.current == Some(seat) && card in s.hands[seat]
  }

  lemma {:induction false} PlayMidTrick(s: State, seat: nat, card: Card, n: State)
    requires PlaysOut(s, seat, card) && |s.trick| < 3
    requires n == s.(version := s.version + 1, hands := s.hands[seat := Without(s.hands[seat], card)],
      trick := s.trick + [Play(seat, card)],
                     spadesBroken := n.spadesBroken, current := Some(NextSeat(seat)))
    ensures Fair(n)
  {
    var deck, played :| Accounted(s, deck, played);
    CardMoves(s, deck, played, seat, card);
    assert Accounted(n, deck, played);
    SizesMidTrick(s, seat, card, n);
  }

  lemma {:induction false} SizesMidTrick(s: State, seat: nat, card: Card, n: State)
    requires Formed(s) && seat < 4 && PlayedInTurn(s) && HandSizes(s) && |s.trick| < 3 && s.current == Some(seat)
    requires Formed(n) && n.trick == s.trick + [Play(seat, card)] && n.tricksWon == s.tricksWon &&
      n.current == Some(NextSeat(seat))
    requires |n.hands[seat]| == |s.hands[seat]| - 1 && forall o: nat :: o < 4 && o != seat ==> n.hands[o] == s.hands[o]
    ensures PlayedInTurn(n) && HandSizes(n)
  {
    assert !HasPlayed(s.trick, seat);
    forall o: nat | o < 4 ensures HasPlayed(n.trick, o) <==> HasPlayed(s.trick, o) || o == seat {
      assert n.trick[|s.trick|].seat == seat;
      if HasPlayed(s.trick, o) {
        var i :| 0 <= i < |s.trick| && s.trick[i].seat == o;
        assert n.trick[i].seat == o;
      }
    }
  }

  /** After the fourth card everyone has played one card to the trick. */
  lemma {:induction false} SizesAfterTrick(s: State, seat: nat, card: Card, hands: seq<seq<Card>>)
    requires Formed(s) && seat < 4 && PlayedInTurn(s) && HandSizes(s) && |s.trick| == 3 && s.current == Some(seat)
    requires |hands| == 4 && |hands[seat]| == |s.hands[seat]| - 1 && forall o: nat :: o < 4 && o != seat ==>
      hands[o] == s.hands[o]
    ensures forall o: nat :: o < 4 ==> |hands[o]| + Sum4(s.tricksWon) + 1 == 13
    ensures HandOver(hands) <==> Sum4(s.tricksWon) == 12
  {
    forall o: nat | o < 4 ensures HasPlayed(s.trick, o) <==> o != seat {
      assert s.trick[0].seat == (seat + 1) % 4 && s.trick[1].seat == (seat + 2) % 4 &&
        s.trick[2].seat == (seat + 3) % 4;
    }
    assert hands[0] == [] <==> Sum4(s.tricksWon) == 12;
  }

  lemma {:induction false} TakingTheTrick(s: State, hands: seq<seq<Card>>, trick: seq<Play>, broken: bool)
    requires Formed(s) && |trick| == 4 && |hands| == 4 && AllSeated(trick)
    ensures var taken := TrickTaken(s, hands, trick, broken);
      && Formed(taken) && Sum4(taken.tricksWon) == Sum4(s.tricksWon) + 1
      && taken.current.Some? && taken.current.value < 4
  {
    assert trick[BestOf(trick, 4)].seat < 4;
  }

  lemma {:induction false} PlayLastOfTrick(s: State, seat: nat, card: Card, broken: bool)
    requires PlaysOut(s, seat, card) && |s.trick| == 3
    ensures var hands := s.hands[seat := Without(s.hands[seat], card)]; var trick := s.trick + [Play(seat, card)];
      var taken := TrickTaken(s, hands, trick, broken);
      && Sum4(taken.tricksWon) <= 13
      && (HandOver(hands) <==> Sum4(taken.tricksWon) == 13)
      && (!HandOver(hands) ==> Fair(taken))
  {
    var deck, played :| Accounted(s, deck, played);
    CardMoves(s, deck, played, seat, card);
    var hands, trick := s.hands[seat := Without(s.hands[seat], card)], s.trick + [Play(seat, card)];
    SizesAfterTrick(s, seat, card, hands);
    TakingTheTrick(s, hands, trick, broken);
    if !HandOver(hands) {
      BetweenTricks(s, TrickTaken(s, hands, trick, broken), deck, played + TrickCards(trick));
    }
  }

  lemma {:induction false} BetweenTricks(s: State, n: State, deck: seq<Card>, played: multiset<Card>)
    requires Sound(s) && s.phase == Playing && Formed(n) && Accounted(n, deck, played)
    requires n == s.(version := n.version, hands := n.hands, trick := [], tricksWon := n.tricksWon,
      spadesBroken := n.spadesBroken, current := n.current)
    requires n.current.Some? && n.current.value < 4 && Sum4(n.tricksWon) < 13
    requires forall o: nat :: o < 4 ==> |n.hands[o]| + Sum4(n.tricksWon) == 13
    ensures Fair(n)
  {
  }

  lemma {:induction false} BagsStayBelowTen(a: Bid, b: Bid, ta: nat, tb: nat, points: int, bags: nat)
    ensures ScoreTeam(a, b, ta, tb, points, bags).bags < 10
  {
    var contract := a.amount + b.amount;
    var made := ta + tb >= contract;
    var overtricks: nat := if made && contract >= 0 then ta + tb - contract else 0;
    PenaltyIsExact(points + (if made then contract * 10 + overtricks else -contract * 10) + NilPoints(a, ta) +
      NilPoints(b, tb), bags + overtricks);
  }

  lemma {:induction false} NextHandIsFair(s: State, deck: seq<Card>)
    requires Formed(s) && s.bags[0] < 10 && s.bags[1] < 10 && s.winner == None && ValidDeck(deck)
    requires forall i :: 0 <= i < 4 ==> s.timeouts[i] < MAX_TIMEOUTS
    ensures Fair(StartNextHand(s, deck).value)
  {
    var n := StartNextHand(s, deck).value;
    DealIsFair(deck, n.dealer);
    NextTurn(n.dealer, 0);
    assert BidInTurn(n, 0);
    assert Accounted(n, deck, multiset{});
  }

  lemma {:induction false} FinishKeepsFair(s: State, deck: seq<Card>)
    requires Formed(s) && AllBid(s.bids) && BidsLegal(s) && s.phase == Playing && s.winner == None &&
      Sum4(s.tricksWon) == 13
    requires forall i :: 0 <= i < 4 ==> s.timeouts[i] < MAX_TIMEOUTS
    ensures FinishHand(s, deck).Ok? ==> Fair(FinishHand(s, deck).value)
  {
    BagsStayBelowTen(s.bids[0].value, s.bids[2].value, s.tricksWon[0], s.tricksWon[2], s.scores[0], s.bags[0]);
    BagsStayBelowTen(s.bids[1].value, s.bids[3].value, s.tricksWon[1], s.tricksWon[3], s.scores[1], s.bags[1]);
    var zero := ScoreTeam(s.bids[0].value, s.bids[2].value, s.tricksWon[0], s.tricksWon[2], s.scores[0], s.bags[0]);
    var one := ScoreTeam(s.bids[1].value, s.bids[3].value, s.tricksWon[1], s.tricksWon[3], s.scores[1], s.bags[1]);
    if !((zero.points >= WINNING_SCORE || one.points >= WINNING_SCORE) && zero.points != one.points) &&
      ValidDeck(deck) {
      NextHandIsFair(s.(scores := [zero.points, one.points], bags := [zero.bags, one.bags]), deck);
    }
  }

  lemma {:induction false} PlayKeepsFair(s: State, seat: nat, card: Card, deck: seq<Card>)
    requires Fair(s) && seat < 4 && s.phase == Playing && PlayCard(s, seat, card, deck).Ok?
    ensures Fair(PlayCard(s, seat, card, deck).value)
  {
    var n := PlayCard(s, seat, card, deck).value;
    var broken := s.spadesBroken || card.suit == Spades;
    if |s.trick| < 3 {
      PlayMidTrick(s, seat, card, n);
    } else {
      PlayLastOfTrick(s, seat, card, broken);
      var hands, trick := s.hands[seat := Without(s.hands[seat], card)], s.trick + [Play(seat, card)];
      if HandOver(hands) { FinishKeepsFair(TrickTaken(s, hands, trick, broken), deck); }
    }
  }

  // ---- every command ---------------------------------------------------------------------------------------

  datatype Command = MakeBid(bid: Bid) | PlayOne(card: Card) | ClaimTimeout | GiveUp

  /** What a command does to the snapshot; `deck` is the shuffled deck a new hand would be dealt from. */
  function Perform(s: State, seat: nat, c: Command, deck: seq<Card>): (outcome: Result<State, RuleError>)
    requires Playable(s) && seat < 4
    ensures outcome.Ok? ==> Formed(outcome.value)
  {
    match c
    case MakeBid(bid) => PlaceBid(s, seat, bid)
    case PlayOne(card) => PlayCard(s, seat, card, deck)
    case ClaimTimeout => Timeout(s, deck)
    case GiveUp => Forfeit(s, seat)
  }

  lemma {:induction false} ForfeitKeepsFair(s: State, seat: nat)
    requires Fair(s) && Forfeit(s, seat).Ok?
    ensures Fair(Forfeit(s, seat).value)
  {
  }

  lemma {:induction false} CountingTimeoutsKeepsFair(s: State, timeouts: seq<nat>)
    requires Fair(s) && |timeouts| == 4
    requires forall i :: 0 <= i < 4 ==> timeouts[i] <= MAX_TIMEOUTS && (Running(s) ==> timeouts[i] < MAX_TIMEOUTS)
    ensures Fair(s.(timeouts := timeouts))
  {
    var n := s.(timeouts := timeouts);
    if Running(s) {
      var deck, played :| Accounted(s, deck, played);
      assert Accounted(n, deck, played);
    }
    if s.phase == Bidding {
      var k: nat :| BidInTurn(s, k);
      assert BidInTurn(n, k);
    }
  }

  lemma {:induction false} ActingKeepsFair(s: State, seat: nat, limit: bool, deck: seq<Card>)
    requires Fair(s) && seat < 4 && ActFor(s, seat, limit, deck).Ok?
    ensures Fair(ActFor(s, seat, limit, deck).value)
    ensures limit ==> !Running(ActFor(s, seat, limit, deck).value)
    ensures ActFor(s, seat, limit, deck).value.version == s.version + 1
  {
    if limit {
      ForfeitKeepsFair(s, seat);
    } else if s.phase == Bidding {
      BidKeepsFair(s, seat, Bid(1, false));
    } else {
      PlayKeepsFair(s, seat, LegalCards(s, seat)[0], deck);
    }
  }

  lemma {:induction false} TimeoutKeepsFair(s: State, deck: seq<Card>)
    requires Fair(s) && Timeout(s, deck).Ok?
    ensures Fair(Timeout(s, deck).value) && Timeout(s, deck).value.version == s.version + 1
  {
    var seat := s.current.value;
    var timeouts := s.timeouts[seat := s.timeouts[seat] + 1];
    var acted := ActFor(s, seat, timeouts[seat] >= MAX_TIMEOUTS, deck);
    TimeoutActs(s, deck, seat, timeouts, acted);
    ActingKeepsFair(s, seat, timeouts[seat] >= MAX_TIMEOUTS, deck);
    CountingTimeoutsKeepsFair(acted.value, timeouts);
  }

  lemma {:induction false} TimeoutActs(s: State, deck: seq<Card>, seat: nat, timeouts: seq<nat>,
      acted: Result<State, RuleError>)
    requires Playable(s) && Timeout(s, deck).Ok? && s.current == Some(seat)
    requires timeouts == s.timeouts[seat := s.timeouts[seat] + 1]
    requires acted == ActFor(s, seat, timeouts[seat] >= MAX_TIMEOUTS, deck)
    ensures acted.Ok? && Timeout(s, deck) == Ok(acted.value.(timeouts := timeouts))
  {
  }

  lemma {:induction false} OtherCommandKeepsFair(s: State, seat: nat, c: Command, deck: seq<Card>)
    requires Fair(s) && seat < 4 && (c.ClaimTimeout? || c.GiveUp?) && Perform(s, seat, c, deck).Ok?
    ensures Fair(Perform(s, seat, c, deck).value)
    ensures Perform(s, seat, c, deck).value.version == s.version + 1
  {
    if c.ClaimTimeout? { TimeoutKeepsFair(s, deck); } else { ForfeitKeepsFair(s, seat); }
  }

  /** Every accepted command leaves a fair snapshot and raises the version by exactly one. */
  lemma {:induction false} PerformKeepsFair(s: State, seat: nat, c: Command, deck: seq<Card>)
    requires Fair(s) && seat < 4 && Perform(s, seat, c, deck).Ok?
    ensures Fair(Perform(s, seat, c, deck).value)
    ensures Perform(s, seat, c, deck).value.version == s.version + 1
  {
    match c {
      case MakeBid(bid) => BidKeepsFair(s, seat, bid);
      case PlayOne(card) => PlayKeepsFair(s, seat, card, deck);
      case _ => OtherCommandKeepsFair(s, seat, c, deck);
    }
  }

  /** The seat to act always has a move, and a timeout always succeeds; once over, nothing is accepted. */
  lemma {:induction false} NeverStuck(s: State, deck: seq<Card>)
    requires Fair(s) && ValidDeck(deck)
    ensures s.phase == Bidding ==> forall bid: Bid :: 0 <= bid.amount <= 13 && (bid.blindNil ==> bid.amount == 0) ==>
      PlaceBid(s, s.current.value, bid).Ok?
    ensures s.phase == Playing ==> LegalCards(s, s.current.value) != []
    ensures s.phase == Playing ==> forall card :: card in LegalCards(s, s.current.value) ==>
      PlayCard(s, s.current.value, card, deck).Ok?
    ensures Running(s) <==> Timeout(s, deck).Ok?
    ensures !Running(s) ==> forall seat: nat, c: Command :: seat < 4 ==> Perform(s, seat, c, deck).Err?
  {
    if s.phase == Bidding {
      var k: nat :| BidInTurn(s, k);
    } else if s.phase == Playing {
      var seat := s.current.value;
      assert !HasPlayed(s.trick, seat);
      assert |s.hands[seat]| >= 1;
      LegalExactly(s, seat, s.hands[seat][0]);
      forall card | card in LegalCards(s, seat) ensures PlayCard(s, seat, card, deck).Ok? {
        LegalExactly(s, seat, card);
      }
      assert LegalCards(s, seat)[0] in LegalCards(s, seat);
    }
  }
}
