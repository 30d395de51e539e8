/** A match from a dealt deck whose report is wrong. */
module LostHands {
  // One player holds all spades, so the others win nothing whatever is played. A nil bid
  // is kept, the last card of the hand is played by a timeout, and the log never closes
  // the hand: the report knows of no nil.
  import opened Common
  import opened GameEvents
  import opened LogFidelity
  import opened MatchCommands
  import opened MatchLog
  import opened SpadesEngine

  // ---- the deal ------------------------------------------------------------------------

  function SuitAt(i: nat): Suit {
    if i % 4 == 0 then Hearts else if i % 4 == 1 then Diamonds else if i % 4 == 2 then Clubs else Spades
  }

  /** Dealt from seat 0 this gives every seat one suit, and seat 0 the spades. */
  function StackedDeck(): seq<Card> {
    seq(52, i requires 0 <= i < 52 => Card(i / 4, SuitAt(i)))
  }

  lemma {:induction false} StackedIsValid()
    ensures ValidDeck(StackedDeck())
  {
  }

  predicate OneSuitEach(hands: seq<seq<Card>>) {
    |hands| == 4 && forall seat: nat, card :: seat < 4 && card in hands[seat] ==> (card.suit == Spades <==> seat == 0)
  }

  lemma {:induction false} StackedDeal(n: nat)
    requires n <= 52
    ensures OneSuitEach(DealFirst(StackedDeck(), 0, n))
  {
    if n > 0 {
      StackedDeal(n - 1);
      var hands := DealFirst(StackedDeck(), 0, n - 1);
      assert StackedDeck()[n - 1].suit == Spades <==> n % 4 == 0;
    }
  }

  // ---- playing it out --------------------------------------------------------------------

  /** In the first hand, with everyone true to one suit; seat 1 has bid nil and won nothing. */
  ghost predicate Lopsided(s: State) {
    && Fair(s) && s.phase == Playing && s.handNumber == 1 && s.timeouts == [0, 0, 0, 0]
    && s.bids[1] == Some(Bid(0, false)) && s.tricksWon[1] == 0
    && OneSuitEach(s.hands)
    && forall i :: 0 <= i < |s.trick| ==> (s.trick[i].card.suit == Spades <==> s.trick[i].seat == 0)
  }

  /** Cards still to be played in the hand. */
  function Left(s: State): int
    requires Formed(s)
  {
    4 * (13 - Sum4(s.tricksWon)) - |s.trick|
  }

  function Lead(s: State): Card
    requires Formed(s) && s.current.Some? && s.current.value < 4 && LegalCards(s, s.current.value) != []
  {
    LegalCards(s, s.current.value)[0]
  }

  lemma {:induction false} CanPlay(s: State)
    requires Lopsided(s)
    ensures s.current.Some? && s.current.value < 4 && LegalCards(s, s.current.value) != []
    ensures Lead(s) in s.hands[s.current.value] && PlayCard(s, s.current.value, Lead(s), StackedDeck()).Ok?
    ensures |s.trick| < 4 && Left(s) >= 1
  {
    StackedIsValid();
    NeverStuck(s, StackedDeck());
    LegalExactly(s, s.current.value, Lead(s));
  }

  /** The player with the spades wins every trick. */
  lemma {:induction false} SpadesWin(s: State)
    requires Lopsided(s) && |s.trick| == 3
    ensures s.current.Some? && s.current.value < 4 && LegalCards(s, s.current.value) != []
    ensures TrickWinner(s.trick + [Play(s.current.value, Lead(s))]) == 0
  {
    CanPlay(s);
    var seat := s.current.value;
    FourthToSpades(s.trick, seat, Lead(s));
  }

  /** Seat 0 alone plays spades, so it wins the trick of all four. */
  lemma {:induction false} FourthToSpades(three: seq<Play>, seat: nat, card: Card)
    requires |three| == 3 && seat < 4 && (card.suit == Spades <==> seat == 0)
    requires three[0].seat == (seat + 1) % 4 && three[1].seat == (seat + 2) % 4 && three[2].seat == (seat + 3) % 4
    requires forall i :: 0 <= i < 3 ==> (three[i].card.suit == Spades <==> three[i].seat == 0)
    ensures TrickWinner(three + [Play(seat, card)]) == 0
  {
    var trick := three + [Play(seat, card)];
    assert trick[0].seat == 0 || trick[1].seat == 0 || trick[2].seat == 0 || trick[3].seat == 0;
    forall i | 0 <= i < 4 ensures trick[i].card.suit == Spades <==> trick[i].seat == 0 {}
    TrickWinnerIsRight(trick, BestOf(trick, 4));
  }

  lemma {:induction false} HandsShrink(s: State)
    requires Lopsided(s) && s.current.Some? && s.current.value < 4 && LegalCards(s, s.current.value) != []
    ensures OneSuitEach(s.hands[s.current.value := Without(s.hands[s.current.value], Lead(s))])
  {
    var seat, card := s.current.value, Lead(s);
    WithoutOne(s.hands[seat], card);
    forall c | c in Without(s.hands[seat], card) ensures c in s.hands[seat] {
      assert multiset(Without(s.hands[seat], card))[c] > 0;
      assert multiset(s.hands[seat])[c] > 0;
    }
  }

  lemma {:induction false} MidTrick(s: State, n: State)
    requires Lopsided(s) && |s.trick| < 3 && s.current.Some? && s.current.value < 4 &&
      LegalCards(s, s.current.value) != []
    requires PlayCard(s, s.current.value, Lead(s), StackedDeck()) == Ok(n)
    ensures Lopsided(n) && Left(n) == Left(s) - 1 && !HandEnds(s, n)
  {
    CanPlay(s);
    HandsShrink(s);
    PlayKeepsFair(s, s.current.value, Lead(s), StackedDeck());
    forall i | 0 <= i < |n.trick| ensures n.trick[i].card.suit == Spades <==> n.trick[i].seat == 0 {
      assert i < |s.trick| ==> n.trick[i] == s.trick[i];
    }
  }

  lemma {:induction false} EndOfTrick(s: State, n: State)
    requires Lopsided(s) && |s.trick| == 3 && Left(s) > 1 && s.current.Some? && s.current.value < 4 &&
      LegalCards(s, s.current.value) != []
    requires PlayCard(s, s.current.value, Lead(s), StackedDeck()) == Ok(n)
    ensures Lopsided(n) && Left(n) == Left(s) - 1 && !HandEnds(s, n)
  {
    CanPlay(s);
    HandsShrink(s);
    SpadesWin(s);
    var seat, card := s.current.value, Lead(s);
    PlayLastOfTrick(s, seat, card, s.spadesBroken || card.suit == Spades);
    PlayKeepsFair(s, seat, card, StackedDeck());
  }

  /** One more card, of several that are left. */
  lemma {:induction false} OneMoreCard(s: State) returns (n: State)
    requires Lopsided(s) && Left(s) > 1
    ensures s.current.Some? && s.current.value < 4 && LegalCards(s, s.current.value) != []
    ensures PlayCard(s, s.current.value, Lead(s), StackedDeck()) == Ok(n)
    ensures Lopsided(n) && Left(n) == Left(s) - 1 && !HandEnds(s, n)
  {
    CanPlay(s);
    n := PlayCard(s, s.current.value, Lead(s), StackedDeck()).value;
    if |s.trick| < 3 { MidTrick(s, n); } else { EndOfTrick(s, n); }
  }

  /** The last card of the hand, played by a timeout. */
  lemma {:induction false} LastCardByTimeout(s: State) returns (n: State)
    requires Lopsided(s) && Left(s) == 1
    ensures Timeout(s, StackedDeck()) == Ok(n) && Formed(n) && HandEnds(s, n) && n.phase != Forfeited
    ensures |s.trick| == 3 && s.current.Some? && s.current.value < 4 && LegalCards(s, s.current.value) != []
    ensures FinalTricks(s, s.current.value, Lead(s))[1] == 0
  {
    CanPlay(s);
    SpadesWin(s);
    StackedIsValid();
    NeverStuck(s, StackedDeck());
    var seat, card := s.current.value, Lead(s);
    PlayLastOfTrick(s, seat, card, s.spadesBroken || card.suit == Spades);
    n := Timeout(s, StackedDeck()).value;
  }

  // ---- the run ------------------------------------------------------------------------------

  const NIL := Bid(0, false)
  const ONE := Bid(1, false)

  /** Seat 1 bids first, and bids nil; the others bid one trick each, seat 0 last. */
  function BidsAfter(k: nat): seq<Option<Bid>> {
    [if k > 3 then Some(ONE) else None, if k > 0 then Some(NIL) else None, if k > 1 then Some(ONE) else None,
      if k > 2 then Some(ONE) else None]
  }

  function BidNext(k: nat): Bid {
    if k == 0 then NIL else ONE
  }

  /** The state after the first `k` bids. */
  ghost predicate Bidden(s: State, k: nat) {
    k < 4 && s == Start(StackedDeck(), 0).(version := k + 1, bids := BidsAfter(k), current := Some((k + 1) % 4))
  }

  lemma {:induction false} StartIsBidden()
    ensures Bidden(Start(StackedDeck(), 0), 0)
  {
  }

  lemma {:induction false} NextBid(s: State, k: nat) returns (n: State)
    requires Bidden(s, k)
    ensures Formed(s) && PlaceBid(s, (k + 1) % 4, BidNext(k)) == Ok(n) && !HandEnds(s, n)
    ensures k < 3 ==> Bidden(n, k + 1)
    ensures k == 3 ==> n.phase == Playing && n.bids == BidsAfter(4)
    ensures n.tricksWon == [0, 0, 0, 0] && n.hands == Deal(StackedDeck(), 0) && n.trick == [] &&
      n.timeouts == [0, 0, 0, 0] && n.handNumber == 1
  {
    var bids := s.bids[(k + 1) % 4 := Some(BidNext(k))];
    assert bids == BidsAfter(k + 1);
    assert k < 3 ==> bids[0] == None;
    n := PlaceBid(s, (k + 1) % 4, BidNext(k)).value;
  }

  /** The first `k` moves were made by the players, and no hand ended. */
  ghost predicate NothingBefore(states: seq<State>, commands: seq<Issued>, k: nat) {
    k <= |commands| < |states| && forall i :: 0 <= i < k ==>
      !HandEnds(states[i], states[i + 1]) && !commands[i].command.ClaimTimeout?
  }

  /** A run so far: a trail of logged moves from the stacked deal, in which no hand has ended. */
  ghost predicate SoFar(states: seq<State>, commands: seq<Issued>, events: seq<Logged>) {
    && IsTrail(states, commands, events) && states[0] == Start(StackedDeck(), 0)
    && NothingBefore(states, commands, |commands|)
  }

  function Entered(seat: nat, c: Command, version: nat): Issued {
    Issued(seat, version, version, version + 1, seat, c, StackedDeck())
  }

  /** A move that the engine accepts makes the trail one longer. */
  lemma {:induction false} TrailGrows(states: seq<State>, commands: seq<Issued>, events: seq<Logged>, m: Issued,
      e: Logged, n: State)
    requires IsTrail(states, commands, events) && IsMove(states[|commands|], m, e.event, n)
    ensures IsTrail(states + [n], commands + [m], events + [e])
  {
    var ss, cs, es := states + [n], commands + [m], events + [e];
    forall i: nat | i < |cs| ensures MoveAt(ss, cs, es, i) {
      if i < |commands| { assert MoveAt(states, commands, events, i); }
      assert ss[i] == states[i] &&
        (i < |commands| ==> ss[i + 1] == states[i + 1] && cs[i] == commands[i] && es[i + 1] == events[i + 1]);
    }
  }

  lemma {:induction false} MoveOn(states: seq<State>, commands: seq<Issued>, events: seq<Logged>, seat: nat, c: Command,
      n: State)
      returns (ss: seq<State>, cs: seq<Issued>, es: seq<Logged>)
    requires SoFar(states, commands, events) && seat < 4 && Playable(states[|commands|])
    requires Perform(states[|commands|], seat, c, StackedDeck()) == Ok(n)
    ensures ss == states + [n] && |cs| == |commands| + 1
    ensures NothingBefore(ss, cs, |commands|)
    ensures cs[|commands|].command == c && cs[|commands|].seat == seat && cs[|commands|].deck == StackedDeck()
    ensures IsTrail(ss, cs, es) && ss[0] == Start(StackedDeck(), 0)
    ensures !c.ClaimTimeout? && !HandEnds(states[|commands|], n) ==> SoFar(ss, cs, es)
  {
    var s := states[|commands|];
    var m, e := Entered(seat, c, s.version), Logged(n.version, Some(seat), EventFor(s, n, seat, c));
    ss, cs, es := states + [n], commands + [m], events + [e];
    TrailGrows(states, commands, events, m, e, n);
    forall i | 0 <= i < |commands| ensures !HandEnds(ss[i], ss[i + 1]) && !cs[i].command.ClaimTimeout? {
      assert ss[i] == states[i] && ss[i + 1] == states[i + 1] && cs[i] == commands[i];
      assert !HandEnds(states[i], states[i + 1]) && !commands[i].command.ClaimTimeout?;
    }
  }

  lemma {:induction false} DealtOneSuitEach()
    ensures OneSuitEach(Deal(StackedDeck(), 0))
  {
    StackedDeal(52);
  }

  lemma {:induction false} BiddingDone(s: State, n: State)
    requires BidIn(s, n)
    ensures Lopsided(n)
  {
    BidKeepsFair(s, 0, BidNext(3));
    DealtOneSuitEach();
  }

  lemma {:induction false} FirstBids(k: nat) returns (states: seq<State>, commands: seq<Issued>, events: seq<Logged>)
    requires k <= 3
    ensures SoFar(states, commands, events) && Bidden(states[|commands|], k)
  {
    StartIsBidden();
    if k == 0 {
      states, commands, events := [Start(StackedDeck(), 0)], [],
        [Logged(1, Some(0), Event(MatchCreated, None, None, None, None))];
    } else {
      states, commands, events := FirstBids(k - 1);
      var n := NextBid(states[|commands|], k - 1);
      states, commands, events := MoveOn(states, commands, events, k, MakeBid(BidNext(k - 1)), n);
    }
  }

  /** What the last of the four bids leaves. */
  ghost predicate BidIn(s: State, n: State) {
    && Fair(s) && PlaceBid(s, 0, BidNext(3)) == Ok(n) && !HandEnds(s, n)
    && n.phase == Playing && n.bids == BidsAfter(4) && n.hands == Deal(StackedDeck(), 0)
    && n.tricksWon == [0, 0, 0, 0] && n.trick == [] && n.timeouts == [0, 0, 0, 0] && n.handNumber == 1
  }

  lemma {:induction false} ThreeBids()
      returns (states: seq<State>, commands: seq<Issued>, events: seq<Logged>, n: State)
    ensures SoFar(states, commands, events) && BidIn(states[|commands|], n)
  {
    states, commands, events := FirstBids(3);
    FairSoFar(states, commands, events);
    n := NextBid(states[|commands|], 3);
  }

  lemma {:induction false} AllBidding() returns (states: seq<State>, commands: seq<Issued>, events: seq<Logged>)
    ensures SoFar(states, commands, events) && Lopsided(states[|commands|])
  {
    var n;
    states, commands, events, n := ThreeBids();
    states, commands, events := BiddingEnds(states, commands, events, n);
  }

  lemma {:induction false} BiddingEnds(states: seq<State>, commands: seq<Issued>, events: seq<Logged>, n: State)
      returns (ss: seq<State>, cs: seq<Issued>, es: seq<Logged>)
    requires SoFar(states, commands, events) && BidIn(states[|commands|], n)
    ensures SoFar(ss, cs, es) && Lopsided(ss[|cs|])
  {
    BiddingDone(states[|commands|], n);
    ss, cs, es := MoveOn(states, commands, events, 0, MakeBid(BidNext(3)), n);
  }

  lemma {:induction false} FairSoFar(states: seq<State>, commands: seq<Issued>, events: seq<Logged>)
    requires SoFar(states, commands, events)
    ensures Fair(states[|commands|])
  {
    StackedIsValid();
    FairThroughout(StackedDeck(), 0, states, commands, events, |commands|);
  }

  lemma {:induction false} NextCard(states: seq<State>, commands: seq<Issued>, events: seq<Logged>)
      returns (ss: seq<State>, cs: seq<Issued>, es: seq<Logged>)
    requires SoFar(states, commands, events) && Lopsided(states[|commands|]) && Left(states[|commands|]) > 1
    ensures SoFar(ss, cs, es) && Lopsided(ss[|cs|]) && 0 < Left(ss[|cs|]) < Left(states[|commands|])
  {
    var s := states[|commands|];
    CanPlay(s);
    var n := OneMoreCard(s);
    ss, cs, es := MoveOn(states, commands, events, s.current.value, PlayOne(Lead(s)), n);
  }

  lemma {:induction false} AllButLastCard(states: seq<State>, commands: seq<Issued>, events: seq<Logged>)
      returns (ss: seq<State>, cs: seq<Issued>, es: seq<Logged>)
    requires SoFar(states, commands, events) && Lopsided(states[|commands|])
    ensures SoFar(ss, cs, es) && Lopsided(ss[|cs|]) && Left(ss[|cs|]) == 1
    decreases Left(states[|commands|])
  {
    var s := states[|commands|];
    CanPlay(s);
    if Left(s) == 1 {
      ss, cs, es := states, commands, events;
    } else {
      ss, cs, es := NextCard(states, commands, events);
      ss, cs, es := AllButLastCard(ss, cs, es);
    }
  }

  /**
   * The report is wrong: there is a match from a dealt deck, every move of it logged but
   * the last card of the hand, which a timeout plays. Seat 1 has kept a nil, and the
   * report of the log counts none: the log has no finished hand at all.
   */
  lemma {:induction false} TimedOutLastCardLosesANil(winnerTeam: nat)
      returns (states: seq<State>, commands: seq<Issued>, events: seq<Logged>, report: Report)
    ensures ValidDeck(StackedDeck()) && Played(StackedDeck(), 0, states, commands, events) && |commands| > 0
    ensures NothingSilent(states, commands, 0, |commands| - 1) && Silent(commands[|commands| - 1], states[|commands|])
    ensures Means(EventsOf(events), 1, 1, winnerTeam, report)
    ensures report.nils == 0 && NilsKept(Results(states, commands, 0, |commands|), 1) == 1
  {
    StackedIsValid();
    states, commands, events := AllBidding();
    states, commands, events := AllButLastCard(states, commands, events);
    var s := states[|commands|];
    var n := LastCardByTimeout(s);
    states, commands, events := MoveOn(states, commands, events, s.current.value, ClaimTimeout, n);
    EndHasOneResult(states, commands, s, n);
    report := Report(0, false, false);
    HandsAreAllThereExactlyWhen(StackedDeck(), 0, states, commands, events, |commands|);
    assert events[..|commands| + 1] == events;
  }

  /** The hand ended by the timeout is the one result of the run, with seat 1's nil kept. */
  lemma {:induction false} EndHasOneResult(states: seq<State>, commands: seq<Issued>, s: State, n: State)
    requires |states| == |commands| + 1 && |commands| > 0 && NothingBefore(states, commands, |commands| - 1)
    requires s == states[|commands| - 1] && n == states[|commands|] && Lopsided(s)
    requires commands[|commands| - 1].command == ClaimTimeout && HandEnds(s, n) && n.phase != Forfeited
    requires |s.trick| == 3 && s.current.Some? && s.current.value < 4 && LegalCards(s, s.current.value) != []
    requires FinalTricks(s, s.current.value, Lead(s))[1] == 0
    ensures |Results(states, commands, 0, |commands|)| == 1 &&
      NilsKept(Results(states, commands, 0, |commands|), 1) == 1
    ensures !EndsLogged(states, commands, |commands|) && NothingSilent(states, commands, 0, |commands| - 1)
  {
    var k := |commands| - 1;
    NoResults(states, commands, 0, k);
    OneResult(states, commands, 0, k + 1);
    NilIsKept(s, commands[k], n);
    assert HandEnds(states[k], states[k + 1]) && !commands[k].command.PlayOne?;
  }

  lemma {:induction false} NilIsKept(s: State, m: Issued, n: State)
    requires Lopsided(s) && m.command == ClaimTimeout && HandEnds(s, n)
    requires |s.trick| == 3 && s.current.Some? && s.current.value < 4 && LegalCards(s, s.current.value) != []
    requires FinalTricks(s, s.current.value, Lead(s))[1] == 0
    ensures |ResultOf(s, m, n)| == 1 && NilsKept(ResultOf(s, m, n), 1) == 1
  {
    var r := HandResult(s.bids, FinalTricks(s, s.current.value, Lead(s)), s.scores);
    assert ResultOf(s, m, n) == [r] && [r][..0] == [];
    assert KeptNil(r, 1);
  }
}
