/** Challenges and their matches. */
module Matchmaking {
  // Two-player challenges are accepted one by one under an advisory lock, and two
  // accepted ones without a common player become a match.
  import opened Common

  datatype Status = Pending | Accepted | Matched | Declined | Cancelled | Expired

  datatype Challenge = Challenge(
    challenger: UserId,
    challenged: UserId,
    request: nat,
    status: Status,
    expiresAt: int,
    acceptedAt: int,
    game: Option<nat>)

  /** `players` in seat order; `paired` marks the matches created here. */
  datatype Game = Game(players: seq<UserId>, active: bool, paired: bool)

  datatype Board = Board(challenges: seq<Challenge>, games: seq<Game>, blocks: set<(UserId, UserId)>)

  datatype Refusal = Self | NotFound | Forbidden | NotFriends | Offline | AlreadyActive | Unavailable | Busy | Blocked |
      NotFourPlayers

  const CHALLENGE_TTL_MS := 120000

  // ---- the tables ---------------------------------------------------------------

  predicate Open(c: Challenge) {
    c.status == Pending || c.status == Accepted
  }

  predicate Involves(c: Challenge, user: UserId) {
    c.challenger == user || c.challenged == user
  }

  predicate Disjoint(c: Challenge, d: Challenge) {
    !Involves(c, d.challenger) && !Involves(c, d.challenged)
  }

  predicate SamePair(c: Challenge, first: UserId, second: UserId) {
    (c.challenger == first && c.challenged == second) || (c.challenger == second && c.challenged == first)
  }

  /** `expireChallenges`. */
  function ExpireAll(challenges: seq<Challenge>, now: int): seq<Challenge> {
    seq(|challenges|, i requires 0 <= i < |challenges| =>
      if Open(challenges[i]) && challenges[i].expiresAt <= now then challenges[i].(status := Expired)
        else challenges[i])
  }

  predicate IsBusy(games: seq<Game>, user: UserId) {
    exists g :: 0 <= g < |games| && games[g].active && user in games[g].players
  }

  predicate IsBlocked(blocks: set<(UserId, UserId)>, first: UserId, second: UserId) {
    (first, second) in blocks || (second, first) in blocks
  }

  /** `assertPairCanPlay`. */
  function PairRefusal(b: Board, c: Challenge): Option<Refusal> {
    if IsBusy(b.games, c.challenger) || IsBusy(b.games, c.challenged) then Some(Busy)
    else if IsBlocked(b.blocks, c.challenger, c.challenged) then Some(Blocked)
    else None
  }

  // ---- operations -----------------------------------------------------------------

  predicate Candidate(challenges: seq<Challenge>, i: nat, j: nat, now: int)
    requires i < |challenges| && j < |challenges|
  {
    && j != i && challenges[j].status == Accepted && challenges[j].game == None && challenges[j].expiresAt > now
    && Disjoint(challenges[i], challenges[j])
  }

  /** The first candidate among the first `n` rows, by acceptance time and then id. */
  function Opponent(challenges: seq<Challenge>, i: nat, now: int, n: nat): (best: Option<nat>)
    requires i < |challenges| && n <= |challenges|
    ensures best.Some? ==> best.value < n && Candidate(challenges, i, best.value, now)
    ensures forall j :: 0 <= j < n && Candidate(challenges, i, j, now) ==>
      best.Some? && (challenges[best.value].acceptedAt < challenges[j].acceptedAt
                     || (challenges[best.value].acceptedAt == challenges[j].acceptedAt && best.value <= j))
  {
    if n == 0 then None
    else
      var best := Opponent(challenges, i, now, n - 1);
      if Candidate(challenges, i, n - 1, now) &&
        (best == None || challenges[n - 1].acceptedAt < challenges[best.value].acceptedAt)
      then Some(n - 1) else best
  }

  /** Seat order: team mates opposite each other. */
  function SeatOrder(c: Challenge, d: Challenge): seq<UserId> {
    [c.challenger, d.challenger, c.challenged, d.challenged]
  }

  predicate FourPlayers(players: seq<UserId>, eligible: set<UserId>) {
    |(set u | u in players) * eligible| == 4
  }

  function Pair(b: Board, i: nat, j: nat, eligible: set<UserId>): Result<Board, Refusal>
    requires i < |b.challenges| && j < |b.challenges|
  {
    var c, d := b.challenges[i], b.challenges[j];
    if PairRefusal(b, d) != None then Err(PairRefusal(b, d).value)
    else if !FourPlayers(SeatOrder(c, d), eligible) then Err(NotFourPlayers)
    else
      var game := Some(|b.games|);
      Ok(b.(games := b.games + [Game(SeatOrder(c, d), true, true)],
            challenges := b.challenges[i := c.(status := Matched, game := game)][j :=
              d.(status := Matched, game := game)]))
  }

  /** `acceptChallenge`; `eligible` are the active, verified users. */
  function Accept(b: Board, user: UserId, i: nat, now: int, eligible: set<UserId>): Result<Board, Refusal> {
    var e := b.(challenges := ExpireAll(b.challenges, now));
    if i >= |e.challenges| || !Involves(e.challenges[i], user) then Err(NotFound)
    else
      var c := e.challenges[i];
      if c.challenged != user then Err(Forbidden)
      else if c.status == Matched then Ok(e)
      else if !Open(c) then Err(Unavailable)
      else if PairRefusal(e, c) != None then Err(PairRefusal(e, c).value)
      else AcceptedOn(e, i, now, eligible)
  }

  function AcceptedOn(e: Board, i: nat, now: int, eligible: set<UserId>): Result<Board, Refusal>
    requires i < |e.challenges|
  {
    var c := e.challenges[i];
    var accepted := if c.status == Accepted then c else c.(status := Accepted, acceptedAt := now);
    var f := e.(challenges := e.challenges[i := accepted]);
    match Opponent(f.challenges, i, now, |f.challenges|)
    case None => Ok(f)
    case Some(j) => Pair(f, i, j, eligible)
  }

  predicate HasRequest(challenges: seq<Challenge>, player: UserId, request: nat) {
    exists i :: 0 <= i < |challenges| && challenges[i].challenger == player && challenges[i].request == request
  }

  predicate HasOpen(challenges: seq<Challenge>, first: UserId, second: UserId) {
    exists i :: 0 <= i < |challenges| && Open(challenges[i]) && SamePair(challenges[i], first, second)
  }

  /** `createChallenge`; friendship and presence are read from tables outside this model. */
  function Create(b: Board, player: UserId, friend: UserId, request: nat, friends: bool, online: bool,
      now: int): Result<Board, Refusal> {
    if player == friend then Err(Self)
    else if HasRequest(b.challenges, player, request) then Ok(b)
    else if !friends then Err(NotFriends)
    else if IsBlocked(b.blocks, player, friend) then Err(Blocked)
    else if IsBusy(b.games, player) || IsBusy(b.games, friend) then Err(Busy)
    else if !online then Err(Offline)
    else
      var challenges := ExpireAll(b.challenges, now);
      if HasOpen(challenges, player, friend) then Err(AlreadyActive)
      else Ok(b.(challenges :=
        challenges + [Challenge(player, friend, request, Pending, now + CHALLENGE_TTL_MS, 0, None)]))
  }

  /** `resolveChallenge`: the challenged player declines or the challenger cancels. */
  function Resolve(b: Board, user: UserId, i: nat, decline: bool): Result<Board, Refusal> {
    if i >= |b.challenges| || !Involves(b.challenges[i], user) then Err(NotFound)
    else
      var c := b.challenges[i];
      var target := if decline then Declined else Cancelled;
      if (if decline then c.challenged else c.challenger) != user then Err(Forbidden)
      else if !Open(c) then (if c.status == target then Ok(b) else Err(Unavailable))
      else Ok(b.(challenges := b.challenges[i := c.(status := target)]))
  }

  function CancelBetween(challenges: seq<Challenge>, first: UserId, second: UserId): seq<Challenge> {
    seq(|challenges|, i requires 0 <= i < |challenges| =>
      if Open(challenges[i]) && SamePair(challenges[i], first, second) then challenges[i].(status := Cancelled)
        else challenges[i])
  }

  /** `block`: an upsert of the block that also cancels what the two have open. */
  function Block(b: Board, player: UserId, blocked: UserId, available: bool): Result<Board, Refusal> {
    if player == blocked then Err(Self)
    else if !available then Err(NotFound)
    else Ok(b.(blocks := b.blocks + {(player, blocked)}, challenges := CancelBetween(b.challenges, player, blocked)))
  }

  // ---- the invariant ------------------------------------------------------------------

  /** Accepted, unmatched and not expired at `now`. */
  predicate InPool(challenges: seq<Challenge>, i: int, now: int) {
    0 <= i < |challenges| && challenges[i].status == Accepted && challenges[i].game == None &&
      challenges[i].expiresAt > now
  }

  predicate Meets(c: Challenge, d: Challenge) {
    Involves(c, d.challenger) || Involves(c, d.challenged)
  }

  /** No two challenges that could be matched with each other are ever left waiting. */
  ghost predicate NothingLeftWaiting(challenges: seq<Challenge>, now: int) {
    forall i, j {:trigger Meets(challenges[i], challenges[j])} ::
      0 <= i < |challenges| && 0 <= j < |challenges| && InPool(challenges, i, now) && InPool(challenges, j, now) ==>
        Meets(challenges[i], challenges[j])
  }

  ghost predicate OneOpenPerPair(challenges: seq<Challenge>) {
    forall i, j :: 0 <= i < j < |challenges| && Open(challenges[i]) && Open(challenges[j]) ==>
      !SamePair(challenges[i], challenges[j].challenger, challenges[j].challenged)
  }

  ghost predicate RowsOk(challenges: seq<Challenge>) {
    forall i :: 0 <= i < |challenges| ==>
      challenges[i].challenger != challenges[i].challenged &&
        (challenges[i].game.Some? <==> challenges[i].status == Matched)
  }

  /** Players of a match created here sit in no other active match created here. */
  ghost predicate NoDoubleSeat(games: seq<Game>) {
    forall g, h :: 0 <= g < h < |games| && games[g].active && games[h].active && games[g].paired && games[h].paired ==>
      forall u :: u in games[g].players ==> u !in games[h].players
  }

  /** `i` and `j` are the two challenges that became match `g`. */
  ghost predicate MadeFrom(b: Board, g: nat, i: nat, j: nat)
    requires g < |b.games|
  {
    && i < |b.challenges| && j < |b.challenges| && i != j
    && b.games[g].players == SeatOrder(b.challenges[i], b.challenges[j])
    && Disjoint(b.challenges[i], b.challenges[j])
    && (forall k :: 0 <= k < |b.challenges| ==> (b.challenges[k].game == Some(g) <==> k == i || k == j))
  }

  ghost predicate Made(b: Board, g: nat)
    requires g < |b.games|
  {
    exists i: nat, j: nat :: MadeFrom(b, g, i, j)
  }

  /** Every match created here used up exactly two challenges, and every matched challenge went into one. */
  ghost predicate Accounted(b: Board) {
    && (forall g: nat {:trigger Made(b, g)} :: g < |b.games| && b.games[g].paired ==> Made(b, g))
    && (forall i :: 0 <= i < |b.challenges| && b.challenges[i].game.Some? ==>
          b.challenges[i].game.value < |b.games| && b.games[b.challenges[i].game.value].paired)
  }

  ghost predicate Good(b: Board, now: int) {
    && RowsOk(b.challenges)
    && NothingLeftWaiting(b.challenges, now)
    && OneOpenPerPair(b.challenges)
    && NoDoubleSeat(b.games)
    && Accounted(b)
  }

  // ---- steps that only close challenges --------------------------------------------------

  /** Some challenges were closed, nothing else changed. */
  ghost predicate OnlyClosed(before: seq<Challenge>, after: seq<Challenge>) {
    && |after| == |before|
    && forall i :: 0 <= i < |before| ==>
         after[i] == before[i] ||
           (Open(before[i]) && after[i] == before[i].(status := after[i].status) && !Open(after[i]) &&
           after[i].status != Matched)
  }

  /** Time only takes challenges out of the pool. */
  lemma {:induction false} WaitingKeepsGood(b: Board, now: int, later: int)
    requires Good(b, now) && now <= later
    ensures Good(b, later)
  {
    forall i, j | InPool(b.challenges, i, later) && InPool(b.challenges, j, later)
      ensures Meets(b.challenges[i], b.challenges[j])
    {
      assert InPool(b.challenges, i, now) && InPool(b.challenges, j, now);
    }
  }

  lemma {:induction false} ClosingKeepsGood(b: Board, c: Board, now: int)
    requires Good(b, now) && OnlyClosed(b.challenges, c.challenges) && c.games == b.games
    ensures Good(c, now)
  {
    forall i, j | InPool(c.challenges, i, now) && InPool(c.challenges, j, now)
      ensures Meets(c.challenges[i], c.challenges[j])
    {
      assert Meets(b.challenges[i], b.challenges[j]);
    }
    forall g: nat | g < |c.games| && c.games[g].paired ensures Made(c, g) {
      assert Made(b, g);
      var i: nat, j: nat :| MadeFrom(b, g, i, j);
      assert MadeFrom(c, g, i, j);
    }
  }

  // ---- accepting ------------------------------------------------------------------------------

  /** Once everything outdated is closed, the pool is all accepted rows. */
  lemma {:induction false} ExpireOnlyCloses(challenges: seq<Challenge>, now: int)
    ensures OnlyClosed(challenges, ExpireAll(challenges, now))
    ensures forall i :: 0 <= i < |challenges| && Open(ExpireAll(challenges, now)[i]) ==> challenges[i].expiresAt > now
  {
  }

  lemma {:induction false} JoiningPool(e: Board, i: nat, now: int, f: Board)
    requires Good(e, now) && i < |e.challenges| && Open(e.challenges[i])
    requires f == e.(challenges := e.challenges[i := if e.challenges[i].status == Accepted then e.challenges[i]
                                                     else e.challenges[i].(status := Accepted, acceptedAt := now)])
    requires forall j :: 0 <= j < |f.challenges| ==> !Candidate(f.challenges, i, j, now)
    ensures Good(f, now)
  {
    forall j, k | InPool(f.challenges, j, now) && InPool(f.challenges, k, now)
      ensures Meets(f.challenges[j], f.challenges[k])
    {
      assert !Candidate(f.challenges, i, j, now) && !Candidate(f.challenges, i, k, now);
      assert Meets(e.challenges[j], e.challenges[k]) || j == i || k == i;
    }
    forall j, k | 0 <= j < k < |f.challenges| && Open(f.challenges[j]) && Open(f.challenges[k])
      ensures !SamePair(f.challenges[j], f.challenges[k].challenger, f.challenges[k].challenged)
    {
      assert Open(e.challenges[j]) && Open(e.challenges[k]);
    }
    SameAccounts(e, f);
  }

  lemma {:induction false} SameAccounts(e: Board, f: Board)
    requires Accounted(e) && f.games == e.games && |f.challenges| == |e.challenges|
    requires forall i :: 0 <= i < |e.challenges| ==>
      && f.challenges[i].game == e.challenges[i].game
      && f.challenges[i].challenger == e.challenges[i].challenger &&
         f.challenges[i].challenged == e.challenges[i].challenged
    ensures Accounted(f)
  {
    forall g: nat | g < |f.games| && f.games[g].paired ensures Made(f, g) {
      assert Made(e, g);
      var i: nat, j: nat :| MadeFrom(e, g, i, j);
      assert MadeFrom(f, g, i, j);
    }
  }

  /** Two disjoint, free pairs become a match. */
  lemma {:induction false} PairingKeepsGood(e: Board, f: Board, i: nat, j: nat, now: int, eligible: set<UserId>)
    requires Good(e, now) && f.games == e.games && |f.challenges| == |e.challenges| && i < |e.challenges| &&
      j < |e.challenges|
    requires Open(e.challenges[i]) && e.challenges[j].status == Accepted && i != j
    requires f.challenges == e.challenges[i := f.challenges[i]]
    requires f.challenges[i].challenger == e.challenges[i].challenger &&
      f.challenges[i].challenged == e.challenges[i].challenged
    requires f.challenges[i].game == None && Disjoint(f.challenges[i], f.challenges[j])
    requires PairRefusal(f, f.challenges[i]) == None && Pair(f, i, j, eligible).Ok?
    ensures Good(Pair(f, i, j, eligible).value, now)
  {
    var n := Pair(f, i, j, eligible).value;
    forall k, l | InPool(n.challenges, k, now) && InPool(n.challenges, l, now)
      ensures Meets(n.challenges[k], n.challenges[l])
    {
      assert Meets(e.challenges[k], e.challenges[l]);
    }
    SeatedOnce(f.games, n.games[|f.games|]);
    PairingAccounts(e, f, n, i, j);
  }

  /** A match of four players who are free doubles no seat. */
  lemma {:induction false} SeatedOnce(games: seq<Game>, made: Game)
    requires NoDoubleSeat(games) && forall u :: u in made.players ==> !IsBusy(games, u)
    ensures NoDoubleSeat(games + [made])
  {
    var more := games + [made];
    forall g, h | 0 <= g < h < |more| && more[g].active && more[h].active && more[g].paired && more[h].paired
      ensures forall u :: u in more[g].players ==> u !in more[h].players
    {
      if h == |games| {
        forall u | u in more[g].players ensures u !in more[h].players {
          assert IsBusy(games, u);
        }
      }
    }
  }

  /** The new match is made from exactly the two challenges. */
  lemma {:induction false} PairingAccounts(e: Board, f: Board, n: Board, i: nat, j: nat)
    requires Accounted(e) && RowsOk(e.challenges) && f.games == e.games && |f.challenges| == |e.challenges|
    requires i < |e.challenges| && j < |e.challenges| && i != j && f.challenges == e.challenges[i := f.challenges[i]]
    requires f.challenges[i].challenger == e.challenges[i].challenger &&
      f.challenges[i].challenged == e.challenges[i].challenged
    requires e.challenges[i].game == None && f.challenges[i].game == None && f.challenges[j].game == None
    requires Disjoint(f.challenges[i], f.challenges[j])
    requires var game := Some(|f.games|); var c, d := f.challenges[i], f.challenges[j];
      n == f.(games := f.games + [Game(SeatOrder(c, d), true, true)],
              challenges := f.challenges[i := c.(status := Matched, game := game)][j :=
                d.(status := Matched, game := game)])
    ensures Accounted(n)
  {
    var made := |e.games|;
    forall g: nat | g < |n.games| && n.games[g].paired ensures Made(n, g) {
      if g == made {
        assert MadeFrom(n, g, i, j);
      } else {
        assert Made(e, g);
        var k: nat, l: nat :| MadeFrom(e, g, k, l);
        assert MadeFrom(n, g, k, l);
      }
    }
  }

  lemma {:induction false} AcceptKeepsGood(b: Board, user: UserId, i: nat, now: int, eligible: set<UserId>)
    requires Good(b, now)
    ensures Good(Committed(b, Accept(b, user, i, now, eligible)), now)
  {
    var e := b.(challenges := ExpireAll(b.challenges, now));
    ExpireOnlyCloses(b.challenges, now);
    ClosingKeepsGood(b, e, now);
    if Accept(b, user, i, now, eligible).Ok? && Open(e.challenges[i]) {
      AcceptedOnGood(e, i, now, eligible);
    }
  }

  lemma {:induction false} AcceptedOnGood(e: Board, i: nat, now: int, eligible: set<UserId>)
    requires Good(e, now) && i < |e.challenges| && Open(e.challenges[i]) && PairRefusal(e, e.challenges[i]) == None
    ensures AcceptedOn(e, i, now, eligible).Ok? ==> Good(AcceptedOn(e, i, now, eligible).value, now)
  {
    var c := e.challenges[i];
    var f := e.(challenges :=
      e.challenges[i := if c.status == Accepted then c else c.(status := Accepted, acceptedAt := now)]);
    var found := Opponent(f.challenges, i, now, |f.challenges|);
    if found == None {
      JoiningPool(e, i, now, f);
    } else if AcceptedOn(e, i, now, eligible).Ok? {
      PairingKeepsGood(e, f, i, found.value, now, eligible);
    }
  }

  /** Accepting again never starts a match: whatever could be matched was matched at once. */
  lemma {:induction false} AcceptingAgainChangesNothing(b: Board, user: UserId, i: nat, now: int, eligible: set<UserId>)
    requires Good(b, now) && i < |b.challenges| && b.challenges[i].status == Accepted
    requires Accept(b, user, i, now, eligible).Ok?
    ensures Accept(b, user, i, now, eligible).value == b.(challenges := ExpireAll(b.challenges, now))
  {
    var e := b.(challenges := ExpireAll(b.challenges, now));
    assert e.challenges[i := e.challenges[i]] == e.challenges;
    forall j | 0 <= j < |e.challenges| ensures !Candidate(e.challenges, i, j, now) {
      if InPool(e.challenges, j, now) {
        assert Meets(b.challenges[i], b.challenges[j]);
      }
    }
  }

  /** A challenge that could start a match now: accepted, waiting, and without a common player. */
  ghost predicate Matchable(b: Board, i: nat, now: int)
    requires i < |b.challenges|
  {
    exists j :: InPool(b.challenges, j, now) && Disjoint(b.challenges[i], b.challenges[j])
  }

  /**
   * The first acceptance of a challenge starts a match exactly when some waiting
   * challenge shares no player with it; the match is with the one accepted
   * earliest, and all waiting challenges without a common player are then gone
   * or share a player with each other.
   */
  lemma {:induction false} FirstAcceptance(b: Board, user: UserId, i: nat, now: int, eligible: set<UserId>)
    requires Good(b, now) && i < |b.challenges| && b.challenges[i].status == Pending
    requires Accept(b, user, i, now, eligible).Ok?
    ensures var n := Accept(b, user, i, now, eligible).value;
      && (Matchable(b, i, now) <==> |n.games| == |b.games| + 1)
      && (!Matchable(b, i, now) <==> n.challenges[i].status == Accepted && n.games == b.games)
      && (Matchable(b, i, now) ==>
            exists j :: InPool(b.challenges, j, now) && MadeFrom(n, |b.games|, i, j)
              && forall k :: InPool(b.challenges, k, now) && Disjoint(b.challenges[i], b.challenges[k]) ==>
                   b.challenges[j].acceptedAt <= b.challenges[k].acceptedAt)
  {
    var e := b.(challenges := ExpireAll(b.challenges, now));
    var c := e.challenges[i];
    var f := e.(challenges := e.challenges[i := c.(status := Accepted, acceptedAt := now)]);
    var found := Opponent(f.challenges, i, now, |f.challenges|);
    forall j | 0 <= j < |b.challenges|
      ensures Candidate(f.challenges, i, j, now)
        <==> InPool(b.challenges, j, now) && Disjoint(b.challenges[i], b.challenges[j])
    {
    }
    if found.Some? {
      var j := found.value;
      var n := Accept(b, user, i, now, eligible).value;
      assert n.games[|b.games|].players == SeatOrder(n.challenges[i], n.challenges[j]);
      assert forall k :: 0 <= k < |b.challenges| ==> b.challenges[k].game != Some(|b.games|);
      assert MadeFrom(n, |b.games|, i, j);
    }
  }

  /** The waiting challenge an acceptance of `i` is matched with. */
  ghost predicate EarliestMatch(b: Board, i: nat, j: nat, now: int)
    requires i < |b.challenges|
  {
    && InPool(b.challenges, j, now) && Disjoint(b.challenges[i], b.challenges[j])
    && forall k :: InPool(b.challenges, k, now) && Disjoint(b.challenges[i], b.challenges[k]) ==>
         b.challenges[j].acceptedAt < b.challenges[k].acceptedAt ||
           (b.challenges[j].acceptedAt == b.challenges[k].acceptedAt && j <= k)
  }

  /**
   * A first acceptance by a free pair is refused exactly when the earliest waiting
   * pair without a common player cannot play any more, for instance because it
   * has joined another match: later waiting pairs are not tried.
   */
  lemma {:induction false} RefusedByTheFirstInLine(b: Board, user: UserId, i: nat, now: int, eligible: set<UserId>)
    requires Good(b, now) && i < |b.challenges| && b.challenges[i].status == Pending && b.challenges[i].expiresAt > now
    requires b.challenges[i].challenged == user && PairRefusal(b, b.challenges[i]) == None
    ensures Accept(b, user, i, now, eligible).Err? <==>
      exists j: nat :: EarliestMatch(b, i, j, now)
        && (PairRefusal(b, b.challenges[j]) != None ||
           !FourPlayers(SeatOrder(b.challenges[i], b.challenges[j]), eligible))
  {
    var e := b.(challenges := ExpireAll(b.challenges, now));
    var c := e.challenges[i];
    var f := e.(challenges := e.challenges[i := c.(status := Accepted, acceptedAt := now)]);
    var found := Opponent(f.challenges, i, now, |f.challenges|);
    forall j | 0 <= j < |b.challenges|
      ensures Candidate(f.challenges, i, j, now)
        <==> InPool(b.challenges, j, now) && Disjoint(b.challenges[i], b.challenges[j])
      ensures j != i && InPool(b.challenges, j, now) ==> f.challenges[j] == b.challenges[j]
    {
    }
    forall j: nat ensures EarliestMatch(b, i, j, now) <==> found == Some(j) {}
    assert SeatOrder(c, b.challenges[i]) == SeatOrder(b.challenges[i], b.challenges[i]);
  }

  // ---- what the pool looks like ---------------------------------------------------------------

  ghost predicate Star(challenges: seq<Challenge>, now: int, centre: UserId) {
    forall i :: InPool(challenges, i, now) ==> Involves(challenges[i], centre)
  }

  ghost predicate Within(challenges: seq<Challenge>, now: int, x: UserId, y: UserId, z: UserId) {
    forall i :: InPool(challenges, i, now) ==>
      challenges[i].challenger in {x, y, z} && challenges[i].challenged in {x, y, z}
  }

  function Other(c: Challenge, user: UserId): UserId {
    if c.challenger == user then c.challenged else c.challenger
  }

  /** The waiting pool is always a star around one player or a triangle of three players. */
  lemma {:induction false} StarOrTriangle(b: Board, now: int)
    requires Good(b, now)
    ensures (exists centre :: Star(b.challenges, now, centre)) || (exists x, y, z :: Within(b.challenges, now, x, y, z))
  {
    var s := b.challenges;
    if i :| InPool(s, i, now) {
      var x, y := s[i].challenger, s[i].challenged;
      if !Star(s, now, x) && !Star(s, now, y) {
        var j :| InPool(s, j, now) && !Involves(s[j], x);
        var k :| InPool(s, k, now) && !Involves(s[k], y);
        assert Meets(s[i], s[j]) && Meets(s[i], s[k]) && Meets(s[j], s[k]);
        var z := Other(s[j], y);
        forall l | InPool(s, l, now) ensures s[l].challenger in {x, y, z} && s[l].challenged in {x, y, z} {
          assert Meets(s[i], s[l]) && Meets(s[j], s[l]) && Meets(s[k], s[l]);
        }
        assert Within(s, now, x, y, z);
      }
    } else {
      assert Star(s, now, 0);
    }
  }

  ghost function PoolOf(challenges: seq<Challenge>, now: int): set<int> {
    set i | 0 <= i < |challenges| && InPool(challenges, i, now)
  }

  /** A triangle holds at most three challenges, since a pair has at most one open. */
  lemma {:induction false} TriangleIsSmall(b: Board, now: int, x: UserId, y: UserId, z: UserId)
    requires Good(b, now) && Within(b.challenges, now, x, y, z)
    ensures |PoolOf(b.challenges, now)| <= 3
  {
    var s := b.challenges;
    var xy := set i | i in PoolOf(s, now) && SamePair(s[i], x, y);
    var yz := set i | i in PoolOf(s, now) && SamePair(s[i], y, z);
    var zx := set i | i in PoolOf(s, now) && SamePair(s[i], z, x);
    InOneOfTheSides(s, now, x, y, z, xy, yz, zx);
    OnePerSide(b, now, x, y, xy);
    OnePerSide(b, now, y, z, yz);
    OnePerSide(b, now, z, x, zx);
  }

  lemma {:induction false} InOneOfTheSides(s: seq<Challenge>, now: int, x: UserId, y: UserId, z: UserId, xy: set<int>,
      yz: set<int>, zx: set<int>)
    requires RowsOk(s) && Within(s, now, x, y, z)
    requires xy == (set i | i in PoolOf(s, now) && SamePair(s[i], x, y))
    requires yz == (set i | i in PoolOf(s, now) && SamePair(s[i], y, z))
    requires zx == (set i | i in PoolOf(s, now) && SamePair(s[i], z, x))
    ensures PoolOf(s, now) == xy + yz + zx
  {
  }

  lemma {:induction false} OnePerSide(b: Board, now: int, x: UserId, y: UserId, side: set<int>)
    requires Good(b, now)
    requires forall i :: i in side ==> InPool(b.challenges, i, now) && SamePair(b.challenges[i], x, y)
    ensures |side| <= 1
  {
    if exists i :: i in side {
      var i :| i in side;
      forall j | j in side ensures j == i {}
      assert side == {i};
    }
  }

  lemma {:induction false} PoolShape(b: Board, now: int)
    requires Good(b, now)
    ensures (exists centre :: Star(b.challenges, now, centre)) || |PoolOf(b.challenges, now)| <= 3
  {
    StarOrTriangle(b, now);
    if x, y, z :| Within(b.challenges, now, x, y, z) {
      TriangleIsSmall(b, now, x, y, z);
    }
  }

  // ---- every run ------------------------------------------------------------------------------

  datatype Op =
    | CreateOp(player: UserId, friend: UserId, request: nat, friends: bool, online: bool)
    | AcceptOp(user: UserId, challenge: nat, eligible: set<UserId>)
    | ResolveOp(user: UserId, challenge: nat, decline: bool)
    | BlockOp(player: UserId, blocked: UserId, available: bool)
    | UnblockOp(player: UserId, blocked: UserId)
    | LookOp
    | GameEnds(game: nat)
    | OtherGame(players: seq<UserId>)

  /** An operation, or the passing of some milliseconds. */
  datatype Event = Do(op: Op) | Wait(ms: nat)

  datatype World = World(board: Board, now: int)

  function After(b: Board, op: Op, now: int): Board {
    match op
    case CreateOp(player, friend, request, friends, online) =>
      Committed(b, Create(b, player, friend, request, friends, online, now))
    case AcceptOp(user, i, eligible) => Committed(b, Accept(b, user, i, now, eligible))
    case ResolveOp(user, i, decline) => Committed(b, Resolve(b, user, i, decline))
    case BlockOp(player, blocked, available) => Committed(b, Block(b, player, blocked, available))
    case UnblockOp(player, blocked) => b.(blocks := b.blocks - {(player, blocked)})
    case LookOp => b.(challenges := ExpireAll(b.challenges, now))
    case GameEnds(g) => if g < |b.games| then b.(games := b.games[g := b.games[g].(active := false)]) else b
    case OtherGame(players) => b.(games := b.games + [Game(players, true, false)])
  }

  function Step(w: World, e: Event): World {
    match e
    case Do(op) => w.(board := After(w.board, op, w.now))
    case Wait(ms) => w.(now := w.now + ms)
  }

  function Run(w: World, events: seq<Event>): World {
    if events == [] then w else Step(Run(w, events[..|events| - 1]), events[|events| - 1])
  }

  lemma {:induction false} CreateKeepsGood(b: Board, player: UserId, friend: UserId, request: nat, friends: bool,
      online: bool, now: int)
    requires Good(b, now)
    ensures Good(Committed(b, Create(b, player, friend, request, friends, online, now)), now)
  {
    var e := b.(challenges := ExpireAll(b.challenges, now));
    ExpireOnlyCloses(b.challenges, now);
    ClosingKeepsGood(b, e, now);
    var n := Committed(b, Create(b, player, friend, request, friends, online, now));
    if n != b {
      forall i, j | InPool(n.challenges, i, now) && InPool(n.challenges, j, now)
        ensures Meets(n.challenges[i], n.challenges[j])
      {
        assert Meets(e.challenges[i], e.challenges[j]);
      }
      forall g: nat | g < |n.games| && n.games[g].paired ensures Made(n, g) {
        assert Made(e, g);
        var i: nat, j: nat :| MadeFrom(e, g, i, j);
        assert MadeFrom(n, g, i, j);
      }
    }
  }

  lemma {:induction false} GamesChange(b: Board, n: Board, now: int)
    requires Good(b, now) && n.challenges == b.challenges && |b.games| <= |n.games|
    requires forall g :: 0 <= g < |b.games| ==>
      n.games[g].players == b.games[g].players && n.games[g].paired == b.games[g].paired &&
        (n.games[g].active ==> b.games[g].active)
    requires forall g :: |b.games| <= g < |n.games| ==> !n.games[g].paired
    ensures Good(n, now)
  {
    forall g: nat | g < |n.games| && n.games[g].paired ensures Made(n, g) {
      assert Made(b, g);
      var i: nat, j: nat :| MadeFrom(b, g, i, j);
      assert MadeFrom(n, g, i, j);
    }
  }

  lemma {:induction false} AfterKeepsGood(b: Board, op: Op, now: int)
    requires Good(b, now)
    ensures Good(After(b, op, now), now)
  {
    match op {
      case CreateOp(player, friend, request, friends, online) =>
        CreateKeepsGood(b, player, friend, request, friends, online, now);
      case AcceptOp(user, i, eligible) => AcceptKeepsGood(b, user, i, now, eligible);
      case ResolveOp(_, _, _) => ClosingKeepsGood(b, After(b, op, now), now);
      case BlockOp(_, _, _) => ClosingKeepsGood(b, After(b, op, now), now);
      case UnblockOp(_, _) => ClosingKeepsGood(b, After(b, op, now), now);
      case LookOp =>
        ExpireOnlyCloses(b.challenges, now);
        ClosingKeepsGood(b, After(b, op, now), now);
      case GameEnds(_) => GamesChange(b, After(b, op, now), now);
      case OtherGame(_) => GamesChange(b, After(b, op, now), now);
    }
  }

  function Opening(start: int): World {
    World(Board([], [], {}), start)
  }

  lemma {:induction false} OpeningIsGood(start: int)
    ensures Good(Opening(start).board, start)
  {
  }

  lemma {:induction false} StepKeepsGood(w: World, e: Event)
    requires Good(w.board, w.now)
    ensures Good(Step(w, e).board, Step(w, e).now)
  {
    match e {
      case Do(op) => AfterKeepsGood(w.board, op, w.now);
      case Wait(ms) => WaitingKeepsGood(w.board, w.now, w.now + ms);
    }
  }

  lemma {:induction false} RunIsGood(events: seq<Event>, start: int)
    ensures Good(Run(Opening(start), events).board, Run(Opening(start), events).now)
    decreases |events|
  {
    if events == [] {
      OpeningIsGood(start);
    } else {
      RunIsGood(events[..|events| - 1], start);
      StepKeepsGood(Run(Opening(start), events[..|events| - 1]), events[|events| - 1]);
    }
  }

  /**
   * Every run, with time passing, refusals, blocks and matches from elsewhere: no
   * two matchable challenges are left waiting, a pair has at most one open
   * challenge, the pool is a star or a triangle, no player sits in two active
   * matches created here, and each of those matches used up exactly two challenges.
   */
  lemma {:induction false} EveryRun(events: seq<Event>, start: int)
    ensures var w := Run(Opening(start), events);
      && Good(w.board, w.now)
      && ((exists centre :: Star(w.board.challenges, w.now, centre)) || |PoolOf(w.board.challenges, w.now)| <= 3)
  {
    RunIsGood(events, start);
    PoolShape(Run(Opening(start), events).board, Run(Opening(start), events).now);
  }

  // ---- a pair that is passed over ------------------------------------------------------------

  /** A waiting challenge with which an acceptance of `i` would make a match. */
  ghost predicate CouldServe(b: Board, i: nat, k: nat, now: int, eligible: set<UserId>)
    requires i < |b.challenges|
  {
    && InPool(b.challenges, k, now) && Disjoint(b.challenges[i], b.challenges[k])
    && PairRefusal(b, b.challenges[k]) == None
    && FourPlayers(SeatOrder(b.challenges[i], b.challenges[k]), eligible)
  }

  /**
   * A first acceptance is refused although some waiting pair could serve, exactly when that pair is not the earliest.
   */
  lemma {:induction false} RefusedDespiteAFreePair(b: Board, user: UserId, i: nat, k: nat, now: int,
      eligible: set<UserId>)
    requires Good(b, now) && i < |b.challenges|
    requires b.challenges[i].status == Pending && b.challenges[i].expiresAt > now
    requires b.challenges[i].challenged == user && PairRefusal(b, b.challenges[i]) == None
    requires CouldServe(b, i, k, now, eligible)
    ensures Accept(b, user, i, now, eligible).Err?
       <==> exists j: nat :: EarliestMatch(b, i, j, now) && !CouldServe(b, i, j, now, eligible)
  {
    RefusedByTheFirstInLine(b, user, i, now, eligible);
  }

  const FIVE: set<UserId> := {1, 2, 3, 4, 5}

  function Row(challenger: UserId, challenged: UserId, accepted: bool, at: int): Challenge {
    Challenge(challenger, challenged, 0, if accepted then Accepted else Pending, at + CHALLENGE_TTL_MS,
      if accepted then at else 0, None)
  }

  lemma {:induction false} NothingExpires(challenges: seq<Challenge>, now: int)
    requires forall i :: 0 <= i < |challenges| ==> challenges[i].expiresAt > now
    ensures ExpireAll(challenges, now) == challenges
  {
  }

  lemma {:induction false} CreateAdds(b: Board, player: UserId, friend: UserId, now: int)
    requires player != friend && b.blocks == {} && !IsBusy(b.games, player) && !IsBusy(b.games, friend)
    requires !HasRequest(b.challenges, player, 0) && !HasOpen(b.challenges, player, friend)
    requires forall i :: 0 <= i < |b.challenges| ==> b.challenges[i].expiresAt > now
    ensures After(b, CreateOp(player, friend, 0, true, true), now)
      == b.(challenges := b.challenges + [Row(player, friend, false, now)])
  {
    NothingExpires(b.challenges, now);
  }

  lemma {:induction false} AcceptWaits(b: Board, i: nat, now: int, eligible: set<UserId>)
    requires i < |b.challenges| && b.challenges[i].status == Pending && PairRefusal(b, b.challenges[i]) == None
    requires forall j :: 0 <= j < |b.challenges| ==> b.challenges[j].expiresAt > now
    requires forall j :: 0 <= j < |b.challenges| && j != i ==> !Disjoint(b.challenges[i], b.challenges[j])
    ensures var c := b.challenges[i];
      After(b, AcceptOp(c.challenged, i, eligible), now)
        == b.(challenges := b.challenges[i := c.(status := Accepted, acceptedAt := now)])
  {
    NothingExpires(b.challenges, now);
    assert b.(challenges := b.challenges) == b;
  }

  /** One event more. */
  lemma {:induction false} OneEvent(w: World, events: seq<Event>, op: Op, mid: World, board: Board)
    requires Run(w, events) == mid && After(mid.board, op, mid.now) == board
    ensures Run(w, events + [Do(op)]) == mid.(board := board)
  {
    assert (events + [Do(op)])[..|events|] == events;
  }

  /** Two challenges with player 2 in common wait, and player 1 has joined another match. */
  function Waiting(at: int): Board {
    Board([Row(1, 2, true, at), Row(2, 3, true, at)], [Game([1, 6, 7, 8], true, false)], {})
  }

  lemma {:induction false} TwoWait(start: int) returns (events: seq<Event>)
    ensures Run(Opening(start), events) == World(Waiting(start), start)
  {
    var w := Opening(start);
    var b1 := Board([Row(1, 2, false, start)], [], {});
    CreateAdds(w.board, 1, 2, start);
    OneEvent(w, [], CreateOp(1, 2, 0, true, true), w, b1);
    AcceptWaits(b1, 0, start, FIVE);
    var b2 := Board([Row(1, 2, true, start)], [], {});
    events := [] + [Do(CreateOp(1, 2, 0, true, true))];
    OneEvent(w, events, AcceptOp(2, 0, FIVE), World(b1, start), b2);
    events := events + [Do(AcceptOp(2, 0, FIVE))];
    events := SecondWaits(start, events);
    OneEvent(w, events, OtherGame([1, 6, 7, 8]), World(Waiting(start).(games := []), start), Waiting(start));
    events := events + [Do(OtherGame([1, 6, 7, 8]))];
  }

  lemma {:induction false} SecondWaits(start: int, before: seq<Event>) returns (events: seq<Event>)
    requires Run(Opening(start), before) == World(Board([Row(1, 2, true, start)], [], {}), start)
    ensures Run(Opening(start), events) == World(Waiting(start).(games := []), start)
  {
    var b2 := Board([Row(1, 2, true, start)], [], {});
    var b3 := Board([Row(1, 2, true, start), Row(2, 3, false, start)], [], {});
    CreateAdds(b2, 2, 3, start);
    OneEvent(Opening(start), before, CreateOp(2, 3, 0, true, true), World(b2, start), b3);
    events := before + [Do(CreateOp(2, 3, 0, true, true))];
    AcceptWaits(b3, 1, start, FIVE);
    OneEvent(Opening(start), events, AcceptOp(3, 1, FIVE), World(b3, start), Waiting(start).(games := []));
    events := events + [Do(AcceptOp(3, 1, FIVE))];
  }

  /**
   * From the empty board: (1,2) and (2,3) wait, player 1 joins another match, and the
   * acceptance of (4,5) is refused because 1 is busy, though (2,3) waits and is free.
   */
  lemma {:induction false} FreePairPassedOver(start: int) returns (events: seq<Event>)
    ensures var w := Run(Opening(start), events);
      && |w.board.challenges| == 3 && w.board.challenges[2].challenged == 5 && w.board.challenges[2].status == Pending
      && Accept(w.board, 5, 2, w.now, FIVE) == Err(Busy)
      && CouldServe(w.board, 2, 1, w.now, FIVE)
  {
    events := TwoWait(start);
    var b, c := Waiting(start), Waiting(start).(challenges := Waiting(start).challenges + [Row(4, 5, false, start)]);
    CreateAdds(b, 4, 5, start);
    OneEvent(Opening(start), events, CreateOp(4, 5, 0, true, true), World(b, start), c);
    events := events + [Do(CreateOp(4, 5, 0, true, true))];
    FirstIsBusy(c, start);
  }

  lemma {:induction false} FirstIsBusy(b: Board, now: int)
    requires b == Waiting(now).(challenges := Waiting(now).challenges + [Row(4, 5, false, now)])
    ensures Accept(b, 5, 2, now, FIVE) == Err(Busy) && CouldServe(b, 2, 1, now, FIVE)
  {
    FirstOfTwo(now);
    NothingExpires(b.challenges, now);
    assert b.challenges[2 := Row(4, 5, true, now)] == Accepted45(now);
    assert b.games[0].active && 1 in b.games[0].players;
    FreeAndFour(b, now);
  }

  function Accepted45(at: int): seq<Challenge> {
    [Row(1, 2, true, at), Row(2, 3, true, at), Row(4, 5, true, at)]
  }

  lemma {:induction false} FirstOfTwo(now: int)
    ensures Opponent(Accepted45(now), 2, now, 3) == Some(0)
  {
    assert Candidate(Accepted45(now), 2, 0, now) && !Candidate(Accepted45(now), 2, 2, now);
  }

  lemma {:induction false} FreeAndFour(b: Board, now: int)
    requires b == Waiting(now).(challenges := Waiting(now).challenges + [Row(4, 5, false, now)])
    ensures CouldServe(b, 2, 1, now, FIVE)
  {
    var order := SeatOrder(b.challenges[2], b.challenges[1]);
    assert order == [4, 2, 5, 3];
    assert (set u | u in order) * FIVE == {2, 3, 4, 5};
  }

  // ---- the service -------------------------------------------------------------------------------

  /** The challenge, match and block tables; every method runs under the advisory lock. */
  class ChallengeTables {
    var challenges: seq<Challenge>
    var games: seq<Game>
    var blocks: set<(UserId, UserId)>

    function Value(): Board
      reads this
    {
      Board(challenges, games, blocks)
    }

    constructor ()
      ensures Value() == Board([], [], {})
    {
      challenges, games, blocks := [], [], {};
    }

    method ExpireChallenges(now: int)
      modifies this`challenges
      ensures challenges == ExpireAll(old(challenges), now)
    {
      ghost var before := challenges;
      var i := 0;
      while i < |challenges|
        invariant 0 <= i <= |challenges| == |before|
        invariant forall k :: 0 <= k < |before| ==> challenges[k] == if k < i then ExpireAll(before, now)[k]
          else before[k]
      {
        if (challenges[i].status == Pending || challenges[i].status == Accepted) && challenges[i].expiresAt <= now {
          challenges := challenges[i := challenges[i].(status := Expired)];
        }
        i := i + 1;
      }
    }

    method FindOpponent(i: nat, now: int) returns (best: Option<nat>)
      requires i < |challenges|
      ensures best == Opponent(challenges, i, now, |challenges|)
    {
      best := None;
      for j := 0 to |challenges|
        invariant best == Opponent(challenges, i, now, j)
      {
        var waiting := j != i && challenges[j].status == Accepted && challenges[j].game == None &&
          challenges[j].expiresAt > now;
        if waiting && Disjoint(challenges[i], challenges[j]) &&
          (best == None || challenges[j].acceptedAt < challenges[best.value].acceptedAt) {
          best := Some(j);
        }
      }
    }

    /** Accepts a challenge and, if another one waits without a common player, starts their match. */
    method AcceptChallenge(user: UserId, i: nat, now: int, eligible: set<UserId>) returns (refusal: Option<Refusal>)
      modifies this`challenges, this`games
      ensures var outcome := Accept(old(Value()), user, i, now, eligible);
        refusal == WhyRefused(outcome) && Value() == Committed(old(Value()), outcome)
    {
      var saved := challenges;
      ExpireChallenges(now);
      if i >= |challenges| || !Involves(challenges[i], user) {
        challenges := saved;
        return Some(NotFound);
      }
      if challenges[i].challenged != user {
        challenges := saved;
        return Some(Forbidden);
      }
      if challenges[i].status == Matched {
        return None;
      }
      if challenges[i].status != Pending && challenges[i].status != Accepted {
        challenges := saved;
        return Some(Unavailable);
      }
      refusal := PairRefusal(Value(), challenges[i]);
      if refusal.Some? {
        challenges := saved;
        return;
      }
      refusal := EnterPool(i, now, eligible);
      if refusal.Some? {
        challenges := saved;
      }
    }

    method EnterPool(i: nat, now: int, eligible: set<UserId>) returns (refusal: Option<Refusal>)
      requires i < |challenges|
      modifies this`challenges, this`games
      ensures var outcome := AcceptedOn(old(Value()), i, now, eligible);
        refusal == WhyRefused(outcome) && Value() == Committed(old(Value()), outcome)
    {
      ghost var before := challenges;
      var saved := challenges;
      if challenges[i].status != Accepted {
        challenges := challenges[i := challenges[i].(status := Accepted, acceptedAt := now)];
      }
      assert challenges
        == before[i := if before[i].status == Accepted then before[i]
        else before[i].(status := Accepted, acceptedAt := now)];
      var opponent := FindOpponent(i, now);
      if opponent == None {
        return None;
      }
      refusal := StartMatch(i, opponent.value, eligible);
      if refusal.Some? {
        challenges := saved;
      }
    }

    method StartMatch(i: nat, j: nat, eligible: set<UserId>) returns (refusal: Option<Refusal>)
      requires i < |challenges| && j < |challenges| && i != j
      modifies this`challenges, this`games
      ensures var outcome := Pair(old(Value()), i, j, eligible);
        refusal == WhyRefused(outcome) && Value() == Committed(old(Value()), outcome)
    {
      refusal := PairRefusal(Value(), challenges[j]);
      if refusal.Some? {
        return;
      }
      var players := [challenges[i].challenger, challenges[j].challenger, challenges[i].challenged,
        challenges[j].challenged];
      if !FourPlayers(players, eligible) {
        return Some(NotFourPlayers);
      }
      var game := |games|;
      games := games + [Game(players, true, true)];
      challenges := challenges[i := challenges[i].(status := Matched, game := Some(game))];
      challenges := challenges[j := challenges[j].(status := Matched, game := Some(game))];
    }

    method CreateChallenge(player: UserId, friend: UserId, request: nat, friends: bool, online: bool,
        now: int) returns (refusal: Option<Refusal>)
      modifies this`challenges
      ensures var outcome := Create(old(Value()), player, friend, request, friends, online, now);
        refusal == WhyRefused(outcome) && Value() == Committed(old(Value()), outcome)
    {
      if player == friend {
        return Some(Self);
      }
      if HasRequest(challenges, player, request) {
        return None;
      }
      if !friends {
        return Some(NotFriends);
      }
      if (player, friend) in blocks || (friend, player) in blocks {
        return Some(Blocked);
      }
      if IsBusy(games, player) || IsBusy(games, friend) {
        return Some(Busy);
      }
      if !online {
        return Some(Offline);
      }
      var saved := challenges;
      ExpireChallenges(now);
      if HasOpen(challenges, player, friend) {
        challenges := saved;
        return Some(AlreadyActive);
      }
      challenges := challenges + [Challenge(player, friend, request, Pending, now + CHALLENGE_TTL_MS, 0, None)];
      refusal := None;
    }

    method ResolveChallenge(user: UserId, i: nat, decline: bool) returns (refusal: Option<Refusal>)
      modifies this`challenges
      ensures var outcome := Resolve(old(Value()), user, i, decline);
        refusal == WhyRefused(outcome) && Value() == Committed(old(Value()), outcome)
    {
      if i >= |challenges| || (challenges[i].challenger != user && challenges[i].challenged != user) {
        return Some(NotFound);
      }
      if decline && challenges[i].challenged != user {
        return Some(Forbidden);
      }
      if !decline && challenges[i].challenger != user {
        return Some(Forbidden);
      }
      var target := if decline then Declined else Cancelled;
      if challenges[i].status != Pending && challenges[i].status != Accepted {
        return if challenges[i].status == target then None else Some(Unavailable);
      }
      challenges := challenges[i := challenges[i].(status := target)];
      refusal := None;
    }

    method BlockPlayer(player: UserId, blocked: UserId, available: bool) returns (refusal: Option<Refusal>)
      modifies this`challenges, this`blocks
      ensures var outcome := Block(old(Value()), player, blocked, available);
        refusal == WhyRefused(outcome) && Value() == Committed(old(Value()), outcome)
    {
      if player == blocked {
        return Some(Self);
      }
      if !available {
        return Some(NotFound);
      }
      blocks := blocks + {(player, blocked)};
      ghost var before := challenges;
      var i := 0;
      while i < |challenges|
        invariant 0 <= i <= |challenges| == |before|
        invariant blocks == old(blocks) + {(player, blocked)}
        invariant forall k :: 0 <= k < |before| ==> challenges[k] == if k < i
          then CancelBetween(before, player, blocked)[k] else before[k]
      {
        if Open(challenges[i]) && SamePair(challenges[i], player, blocked) {
          challenges := challenges[i := challenges[i].(status := Cancelled)];
        }
        i := i + 1;
      }
      assert challenges == CancelBetween(before, player, blocked);
      refusal := None;
    }
  }
}
