/** Who may act on a challenge. */
module Consent {
  // Every answer to a challenge comes from the player it belongs to: what each operation
  // demands of its caller, what it writes, and why each challenge has its status.
  import opened Common
  import opened Matchmaking

  // ---- what lapses ---------------------------------------------------------------------

  /** Challenges that are pending or accepted past their time have expired; nothing else changed. */
  ghost predicate Lapsed(before: seq<Challenge>, after: seq<Challenge>, now: int) {
    && |after| == |before|
    && forall i :: 0 <= i < |before| ==> LapsedRow(before[i], after[i], now)
  }

  predicate LapsedRow(c: Challenge, d: Challenge, now: int) {
    d == if (c.status == Pending || c.status == Accepted) && c.expiresAt <= now then c.(status := Expired) else c
  }

  /** Neither sits in an active match, and neither has blocked the other. */
  ghost predicate Free(b: Board, first: UserId, second: UserId) {
    && (forall g :: 0 <= g < |b.games| && b.games[g].active ==>
          first !in b.games[g].players && second !in b.games[g].players)
    && (first, second) !in b.blocks && (second, first) !in b.blocks
  }

  /** Some challenge between the two is pending or accepted, and its time is not over. */
  ghost predicate Underway(b: Board, first: UserId, second: UserId, now: int) {
    exists i :: 0 <= i < |b.challenges| && UnderwayRow(b.challenges[i], first, second, now)
  }

  predicate UnderwayRow(c: Challenge, first: UserId, second: UserId, now: int) {
    && (c.status == Pending || c.status == Accepted) && c.expiresAt > now
    && ((c.challenger == first && c.challenged == second) || (c.challenger == second && c.challenged == first))
  }

  lemma {:induction false} ExpiringLapses(challenges: seq<Challenge>, now: int)
    ensures Lapsed(challenges, ExpireAll(challenges, now), now)
  {
  }

  lemma {:induction false} FreeIs(b: Board, c: Challenge)
    ensures PairRefusal(b, c) == None <==> Free(b, c.challenger, c.challenged)
  {
  }

  // ---- challenging --------------------------------------------------------------------------

  /**
   * A new challenge needs an online friend, no block, no match either player is in and no
   * other challenge of the two under way; it waits two minutes for the friend. A repeated
   * request changes nothing.
   */
  lemma {:induction false} CreateExactlyWhen(b: Board, player: UserId, friend: UserId, request: nat, friends: bool,
      online: bool, now: int)
    ensures var repeated :=
        exists i :: 0 <= i < |b.challenges| && b.challenges[i].challenger == player &&
          b.challenges[i].request == request;
      var outcome := Create(b, player, friend, request, friends, online, now);
      && (repeated && player != friend ==> outcome == Ok(b))
      && (!repeated || player == friend ==>
            (outcome.Ok? <==> player != friend && friends && online && Free(b, player, friend) &&
                              !Underway(b, player, friend, now)))
      && (outcome.Ok? && !repeated ==> Challenged(b, player, friend, request, now, outcome.value))
  {
    ExpiringLapses(b.challenges, now);
    var challenges := ExpireAll(b.challenges, now);
    forall i | 0 <= i < |challenges|
      ensures Open(challenges[i]) && SamePair(challenges[i], player, friend)
         <==> UnderwayRow(b.challenges[i], player, friend, now)
    {
      assert LapsedRow(b.challenges[i], challenges[i], now);
    }
  }

  ghost predicate Challenged(b: Board, player: UserId, friend: UserId, request: nat, now: int, e: Board) {
    && e.games == b.games && e.blocks == b.blocks && |e.challenges| == |b.challenges| + 1
    && Lapsed(b.challenges, e.challenges[..|b.challenges|], now)
    && e.challenges[|b.challenges|] == Challenge(player, friend, request, Pending, now + 120000, 0, None)
  }

  // ---- answering ------------------------------------------------------------------------------

  /** Only the challenged player declines and only the challenger cancels; a repetition changes nothing. */
  lemma {:induction false} ResolveExactlyWhen(b: Board, user: UserId, i: nat, decline: bool)
    ensures var outcome := Resolve(b, user, i, decline); var target := if decline then Declined else Cancelled;
      && (outcome.Ok? <==>
            && i < |b.challenges|
            && user == (if decline then b.challenges[i].challenged else b.challenges[i].challenger)
            && b.challenges[i].status in {Pending, Accepted, target})
      && (outcome.Ok? ==> outcome.value == b.(challenges := b.challenges[i := b.challenges[i].(status := target)]))
  {
    if i < |b.challenges| { assert b.challenges[i := b.challenges[i]] == b.challenges; }
  }

  /** A block of somebody else stands from then on and cancels what the two have open, whoever challenged whom. */
  lemma {:induction false} BlockExactlyWhen(b: Board, player: UserId, blocked: UserId, available: bool)
    ensures var outcome := Block(b, player, blocked, available);
      && (outcome.Ok? <==> player != blocked && available)
      && (outcome.Ok? ==>
         && outcome.value.games == b.games && outcome.value.blocks == b.blocks + {(player, blocked)}
         && |outcome.value.challenges| == |b.challenges|
         && forall i :: 0 <= i < |b.challenges| ==>
            outcome.value.challenges[i] == BlockedRow(b.challenges[i], player, blocked))
  {
  }

  function BlockedRow(c: Challenge, player: UserId, blocked: UserId): Challenge {
    if c.status in {Pending, Accepted} && (c.challenger, c.challenged) in {(player, blocked), (blocked, player)}
    then c.(status := Cancelled) else c
  }

  /** A stranger does not find the challenge, and the wrong one of its two players is turned away. */
  lemma {:induction false} OthersAreTurnedAway(b: Board, user: UserId, i: nat, decline: bool, now: int,
      eligible: set<UserId>)
    ensures var theirs := i < |b.challenges| && user in {b.challenges[i].challenger, b.challenges[i].challenged};
      && (Accept(b, user, i, now, eligible) == Err(NotFound) <==> !theirs)
      && (Resolve(b, user, i, decline) == Err(NotFound) <==> !theirs)
      && (Accept(b, user, i, now, eligible) == Err(Forbidden) <==> theirs && user != b.challenges[i].challenged)
      && (Resolve(b, user, i, decline) == Err(Forbidden) <==>
            theirs && user != if decline then b.challenges[i].challenged else b.challenges[i].challenger)
  {
  }

  /** The challenge that waits longest among those without a common player with `i`. */
  ghost predicate LongestWaiting(b: Board, i: nat, j: nat, now: int)
    requires i < |b.challenges| && j < |b.challenges|
  {
    WaitsApart(b, i, j, now) && forall k: nat :: k < |b.challenges| && WaitsApart(b, i, k, now) ==>
      b.challenges[j].acceptedAt < b.challenges[k].acceptedAt ||
        (b.challenges[j].acceptedAt == b.challenges[k].acceptedAt && j <= k)
  }

  predicate WaitsApart(b: Board, i: nat, j: nat, now: int)
    requires i < |b.challenges| && j < |b.challenges|
  {
    var c, d := b.challenges[i], b.challenges[j];
    && j != i && d.status == Accepted && d.game == None && d.expiresAt > now
    && d.challenger !in {c.challenger, c.challenged} && d.challenged !in {c.challenger, c.challenged}
  }

  /** The four are different, active and verified. */
  ghost predicate FourEligible(c: Challenge, d: Challenge, eligible: set<UserId>) {
    |{c.challenger, c.challenged, d.challenger, d.challenged} * eligible| == 4
  }

  /** The match of two challenges: each pair sits opposite each other. */
  ghost predicate Seated(c: Challenge, d: Challenge, game: Game) {
    && |game.players| == 4 && game.active && game.paired
    && game.players[0] == c.challenger && game.players[2] == c.challenged
    && game.players[1] == d.challenger && game.players[3] == d.challenged
  }

  /** What is left by an acceptance that waits. */
  ghost predicate NowWaiting(b: Board, i: nat, now: int, e: Board)
    requires i < |b.challenges|
  {
    && e.games == b.games && e.blocks == b.blocks && |e.challenges| == |b.challenges|
    && (forall k: nat :: k < |b.challenges| && k != i ==> LapsedRow(b.challenges[k], e.challenges[k], now))
    && e.challenges[i] == (if b.challenges[i].status == Pending
                           then b.challenges[i].(status := Accepted, acceptedAt := now) else b.challenges[i])
  }

  /** What is left by an acceptance that makes a match with challenge `j`. */
  ghost predicate NowMatched(b: Board, i: nat, j: nat, now: int, e: Board)
    requires i < |b.challenges| && j < |b.challenges|
  {
    && |e.games| == |b.games| + 1 && e.games[..|b.games|] == b.games && e.blocks == b.blocks
    && Seated(b.challenges[i], b.challenges[j], e.games[|b.games|]) && |e.challenges| == |b.challenges|
    && (forall k: nat :: k < |b.challenges| && k != i && k != j ==> LapsedRow(b.challenges[k], e.challenges[k], now))
    && e.challenges[j] == b.challenges[j].(status := Matched, game := Some(|b.games|))
    && e.challenges[i] == b.challenges[i].(status := Matched, game := Some(|b.games|),
                                           acceptedAt := e.challenges[i].acceptedAt)
  }

  /**
   * An acceptance that the caller may make: the challenge is the caller's to accept and still open, and both are
   * free.
   */
  ghost predicate MayAccept(b: Board, user: UserId, i: nat, now: int) {
    && i < |b.challenges| && b.challenges[i].challenged == user
    && b.challenges[i].status in {Pending, Accepted} && b.challenges[i].expiresAt > now
    && Free(b, b.challenges[i].challenger, b.challenges[i].challenged)
  }

  lemma {:induction false} OpponentIs(b: Board, i: nat, now: int, f: Board)
    requires i < |b.challenges| && b.challenges[i].status in {Pending, Accepted} && b.challenges[i].expiresAt > now
    requires |f.challenges| == |b.challenges|
    requires forall k: nat :: k < |b.challenges| && k != i ==> LapsedRow(b.challenges[k], f.challenges[k], now)
    requires f.challenges[i].challenger == b.challenges[i].challenger
    requires f.challenges[i].challenged == b.challenges[i].challenged
    ensures forall k: nat :: k < |b.challenges| ==> (Candidate(f.challenges, i, k, now) <==> WaitsApart(b, i, k, now))
    ensures forall j: nat :: j < |b.challenges| ==>
      (Opponent(f.challenges, i, now, |f.challenges|) == Some(j) <==> LongestWaiting(b, i, j, now))
  {
    forall k: nat | k < |b.challenges| ensures Candidate(f.challenges, i, k, now) <==> WaitsApart(b, i, k, now) {
      if k != i { assert LapsedRow(b.challenges[k], f.challenges[k], now); }
    }
    var best := Opponent(f.challenges, i, now, |f.challenges|);
    forall j: nat | j < |b.challenges| ensures best == Some(j) <==> LongestWaiting(b, i, j, now) {
      if LongestWaiting(b, i, j, now) { assert Candidate(f.challenges, i, j, now); }
    }
  }

  /**
   * Only the challenged player accepts, and only an open challenge of two free players. It
   * then waits if no waiting challenge is without a common player; otherwise the longest
   * waiting one of those becomes the opponent, or the acceptance is refused if its players
   * are not free or the four are not eligible.
   */
  lemma {:induction false} AcceptExactlyWhen(b: Board, user: UserId, i: nat, now: int, eligible: set<UserId>)
    ensures var outcome := Accept(b, user, i, now, eligible);
      && (outcome.Ok? ==> i < |b.challenges| && b.challenges[i].challenged == user)
      && (outcome.Ok? && !MayAccept(b, user, i, now) ==> b.challenges[i].status == Matched)
      && (MayAccept(b, user, i, now) ==>
            && ((forall k: nat :: k < |b.challenges| ==> !WaitsApart(b, i, k, now)) ==>
                  outcome.Ok? && NowWaiting(b, i, now, outcome.value))
            && (forall j: nat :: j < |b.challenges| && LongestWaiting(b, i, j, now) ==>
                  && (outcome.Ok? <==> Free(b, b.challenges[j].challenger, b.challenges[j].challenged) &&
                                       FourEligible(b.challenges[i], b.challenges[j], eligible))
                  && (outcome.Ok? ==> NowMatched(b, i, j, now, outcome.value))))
  {
    var e := b.(challenges := ExpireAll(b.challenges, now));
    ExpiringLapses(b.challenges, now);
    if i < |b.challenges| {
      assert LapsedRow(b.challenges[i], e.challenges[i], now);
      FreeIs(e, e.challenges[i]);
      if MayAccept(b, user, i, now) { AcceptedIs(b, i, now, eligible, e); }
    }
  }

  lemma {:induction false} AcceptedIs(b: Board, i: nat, now: int, eligible: set<UserId>, e: Board)
    requires i < |b.challenges| && b.challenges[i].status in {Pending, Accepted} && b.challenges[i].expiresAt > now
    requires e == b.(challenges := e.challenges) && Lapsed(b.challenges, e.challenges, now)
    ensures var outcome := AcceptedOn(e, i, now, eligible);
      && ((forall k: nat :: k < |b.challenges| ==> !WaitsApart(b, i, k, now)) ==>
            outcome.Ok? && NowWaiting(b, i, now, outcome.value))
      && (forall j: nat :: j < |b.challenges| && LongestWaiting(b, i, j, now) ==>
            && (outcome.Ok? <==> Free(b, b.challenges[j].challenger, b.challenges[j].challenged) &&
                                 FourEligible(b.challenges[i], b.challenges[j], eligible))
            && (outcome.Ok? ==> NowMatched(b, i, j, now, outcome.value)))
  {
    assert LapsedRow(b.challenges[i], e.challenges[i], now);
    var c := e.challenges[i];
    var f := e.(challenges := e.challenges[i := if c.status == Accepted then c
                                                else c.(status := Accepted, acceptedAt := now)]);
    OpponentIs(b, i, now, f);
    var best := Opponent(f.challenges, i, now, |f.challenges|);
    if best.Some? {
      PairedIs(b, i, best.value, now, eligible, f);
      assert AcceptedOn(e, i, now, eligible) == Pair(f, i, best.value, eligible);
    }
  }

  lemma {:induction false} PairedIs(b: Board, i: nat, j: nat, now: int, eligible: set<UserId>, f: Board)
    requires i < |b.challenges| && j < |b.challenges| && |f.challenges| == |b.challenges|
    requires f == b.(challenges := f.challenges)
    requires forall k: nat :: k < |b.challenges| && k != i ==> LapsedRow(b.challenges[k], f.challenges[k], now)
    requires WaitsApart(b, i, j, now)
    requires f.challenges[i] == b.challenges[i].(status := Accepted, acceptedAt := f.challenges[i].acceptedAt)
    ensures var outcome := Pair(f, i, j, eligible);
      && (outcome.Ok? <==> Free(b, b.challenges[j].challenger, b.challenges[j].challenged) &&
                           FourEligible(b.challenges[i], b.challenges[j], eligible))
      && (outcome.Ok? ==> NowMatched(b, i, j, now, outcome.value))
  {
    assert LapsedRow(b.challenges[j], f.challenges[j], now);
    FreeIs(f, f.challenges[j]);
    assert f.challenges[j] == b.challenges[j];
    FourIs(f.challenges[i], b.challenges[i], b.challenges[j], eligible);
  }

  lemma {:induction false} FourIs(c: Challenge, before: Challenge, d: Challenge, eligible: set<UserId>)
    requires c.challenger == before.challenger && c.challenged == before.challenged
    ensures FourPlayers(SeatOrder(c, d), eligible) <==> FourEligible(before, d, eligible)
  {
    var players := SeatOrder(c, d);
    forall u ensures u in players <==> u in {c.challenger, c.challenged, d.challenger, d.challenged} {
      assert players[0] == c.challenger && players[1] == d.challenger;
    }
    assert (set u | u in players) * eligible
        == {before.challenger, before.challenged, d.challenger, d.challenged} * eligible;
  }

  // ---- why a challenge has its status ----------------------------------------------------------------

  predicate IsCreate(e: Event, c: Challenge) {
    e.Do? && e.op == CreateOp(c.challenger, c.challenged, c.request, true, true)
  }

  predicate IsAccept(e: Event, c: Challenge, i: nat) {
    e.Do? && e.op.AcceptOp? && e.op.user == c.challenged && e.op.challenge == i
  }

  predicate IsAnswer(e: Event, c: Challenge, i: nat, decline: bool) {
    e == Do(ResolveOp(if decline then c.challenged else c.challenger, i, decline))
  }

  predicate IsBlock(e: Event, c: Challenge) {
    e.Do? && e.op.BlockOp? &&
      (e.op.player, e.op.blocked) in {(c.challenger, c.challenged), (c.challenged, c.challenger)}
  }

  /** What alone can bring a challenge to its status. */
  predicate Explains(e: Event, c: Challenge, i: nat) {
    match c.status
    case Pending => IsCreate(e, c)
    case Accepted => IsAccept(e, c, i)
    case Matched => IsAccept(e, c, i)
    case Declined => IsAnswer(e, c, i, true)
    case Cancelled => IsAnswer(e, c, i, false) || IsBlock(e, c)
    case Expired => IsCreate(e, c)
  }

  ghost predicate AllJustified(events: seq<Event>, w: World) {
    forall i: nat :: i < |w.board.challenges| ==> Justified(events, w.board.challenges[i], i, w.now)
  }

  ghost predicate Justified(events: seq<Event>, c: Challenge, i: nat, now: int) {
    && (exists k :: 0 <= k < |events| && IsCreate(events[k], c))
    && (exists k :: 0 <= k < |events| && Explains(events[k], c, i))
    && (c.status == Expired ==> c.expiresAt <= now)
  }

  /** How one operation may change a challenge. */
  predicate Moves(e: Event, c: Challenge, d: Challenge, i: nat, now: int) {
    && d.challenger == c.challenger && d.challenged == c.challenged && d.request == c.request &&
       d.expiresAt == c.expiresAt
    && (|| d.status == c.status
        || (d.status == Matched && c.status == Accepted)
        || (d.status == Expired && c.expiresAt <= now)
        || (d.status != Expired && Explains(e, d, i)))
  }

  lemma {:induction false} EachMoves(b: Board, op: Op, now: int)
    ensures var e := After(b, op, now);
      && |b.challenges| <= |e.challenges|
      && (forall i: nat :: i < |b.challenges| ==> Moves(Do(op), b.challenges[i], e.challenges[i], i, now))
      && (forall i: nat :: |b.challenges| <= i < |e.challenges| ==>
            e.challenges[i].status == Pending && IsCreate(Do(op), e.challenges[i]))
  {
    match op {
      case CreateOp(player, friend, request, friends, online) =>
        CreateExactlyWhen(b, player, friend, request, friends, online, now);
        CreateMoves(b, player, friend, request, friends, online, now);
      case AcceptOp(user, i, eligible) => AcceptMoves(b, user, i, now, eligible);
      case ResolveOp(user, i, decline) => ResolveExactlyWhen(b, user, i, decline);
      case BlockOp(player, blocked, available) =>
      case LookOp => ExpiringLapses(b.challenges, now);
      case _ =>
    }
  }

  lemma {:induction false} CreateMoves(b: Board, player: UserId, friend: UserId, request: nat, friends: bool,
      online: bool, now: int)
    ensures var op := CreateOp(player, friend, request, friends, online); var e := After(b, op, now);
      && |b.challenges| <= |e.challenges|
      && (forall i: nat :: i < |b.challenges| ==> Moves(Do(op), b.challenges[i], e.challenges[i], i, now))
      && (forall i: nat :: |b.challenges| <= i < |e.challenges| ==>
            e.challenges[i].status == Pending && IsCreate(Do(op), e.challenges[i]))
  {
    CreateExactlyWhen(b, player, friend, request, friends, online, now);
    var e := After(b, CreateOp(player, friend, request, friends, online), now);
    if e != b {
      assert Challenged(b, player, friend, request, now, e);
      forall i: nat | i < |b.challenges| ensures LapsedRow(b.challenges[i], e.challenges[i], now) {
        assert e.challenges[i] == e.challenges[..|b.challenges|][i];
      }
    }
  }

  lemma {:induction false} AcceptMoves(b: Board, user: UserId, i: nat, now: int, eligible: set<UserId>)
    ensures var op := AcceptOp(user, i, eligible); var e := After(b, op, now);
      && |e.challenges| == |b.challenges|
      && (forall k: nat :: k < |b.challenges| ==> Moves(Do(op), b.challenges[k], e.challenges[k], k, now))
  {
    var e := After(b, AcceptOp(user, i, eligible), now);
    AcceptExactlyWhen(b, user, i, now, eligible);
    if Accept(b, user, i, now, eligible).Ok? {
      if !MayAccept(b, user, i, now) {
        ExpiringLapses(b.challenges, now);
      } else {
        AcceptWrites(b, user, i, now, eligible, e);
      }
    }
  }

  lemma {:induction false} AcceptWrites(b: Board, user: UserId, i: nat, now: int, eligible: set<UserId>, e: Board)
    requires MayAccept(b, user, i, now) && Accept(b, user, i, now, eligible) == Ok(e)
    ensures |e.challenges| == |b.challenges|
    ensures forall k: nat :: k < |b.challenges| ==>
      Moves(Do(AcceptOp(user, i, eligible)), b.challenges[k], e.challenges[k], k, now)
  {
    AcceptExactlyWhen(b, user, i, now, eligible);
    if exists k: nat :: k < |b.challenges| && WaitsApart(b, i, k, now) {
      var j := SomeLongest(b, i, now);
      MatchedMoves(b, i, j, now, e, Do(AcceptOp(user, i, eligible)));
    } else {
      WaitingMoves(b, i, now, e, Do(AcceptOp(user, i, eligible)));
    }
  }

  lemma {:induction false} WaitingMoves(b: Board, i: nat, now: int, e: Board, event: Event)
    requires i < |b.challenges| && NowWaiting(b, i, now, e) && IsAccept(event, b.challenges[i], i)
    requires b.challenges[i].status in {Pending, Accepted}
    ensures |e.challenges| == |b.challenges|
    ensures forall k: nat :: k < |b.challenges| ==> Moves(event, b.challenges[k], e.challenges[k], k, now)
  {
  }

  lemma {:induction false} MatchedMoves(b: Board, i: nat, j: nat, now: int, e: Board, event: Event)
    requires i < |b.challenges| && j < |b.challenges| && NowMatched(b, i, j, now, e)
    requires IsAccept(event, b.challenges[i], i) && b.challenges[j].status == Accepted
    ensures |e.challenges| == |b.challenges|
    ensures forall k: nat :: k < |b.challenges| ==> Moves(event, b.challenges[k], e.challenges[k], k, now)
  {
  }

  lemma {:induction false} SomeLongest(b: Board, i: nat, now: int) returns (j: nat)
    requires i < |b.challenges| && b.challenges[i].status in {Pending, Accepted} && b.challenges[i].expiresAt > now
    requires exists k: nat :: k < |b.challenges| && WaitsApart(b, i, k, now)
    ensures j < |b.challenges| && LongestWaiting(b, i, j, now)
  {
    var f := b.(challenges := ExpireAll(b.challenges, now));
    ExpiringLapses(b.challenges, now);
    OpponentIs(b, i, now, f);
    j := Opponent(f.challenges, i, now, |f.challenges|).value;
  }

  lemma {:induction false} StepJustifies(events: seq<Event>, w: World, e: Event)
    requires AllJustified(events, w)
    ensures AllJustified(events + [e], Step(w, e))
  {
    var n, more := Step(w, e), events + [e];
    match e {
      case Wait(_) =>
        forall i: nat | i < |n.board.challenges| ensures Justified(more, n.board.challenges[i], i, n.now) {
          StillJustified(events, e, w.board.challenges[i], n.board.challenges[i], i, w.now, n.now);
        }
      case Do(op) =>
        EachMoves(w.board, op, w.now);
        forall i: nat | i < |n.board.challenges| ensures Justified(more, n.board.challenges[i], i, n.now) {
          if i < |w.board.challenges| {
            StillJustified(events, e, w.board.challenges[i], n.board.challenges[i], i, w.now, n.now);
          } else {
            assert IsCreate(more[|events|], n.board.challenges[i]);
          }
        }
    }
  }

  lemma {:induction false} StillJustified(events: seq<Event>, e: Event, c: Challenge, d: Challenge, i: nat, now: int,
      later: int)
    requires Justified(events, c, i, now) && Moves(e, c, d, i, now) && now <= later
    ensures Justified(events + [e], d, i, later)
  {
    var more := events + [e];
    var k :| 0 <= k < |events| && IsCreate(events[k], c);
    assert more[k] == events[k] && IsCreate(more[k], d);
    var j :| 0 <= j < |events| && Explains(events[j], c, i);
    assert more[j] == events[j] && more[|events|] == e;
    if d.status == c.status || (d.status == Matched && c.status == Accepted) {
      assert Explains(more[j], d, i);
    } else if d.status == Expired {
      assert Explains(more[k], d, i);
    } else {
      assert Explains(more[|events|], d, i);
    }
  }

  /**
   * Over every run from the empty board every challenge was made by its challenger to an
   * online friend, an accepted or matched one was accepted by its challenged player, a
   * declined one declined by that player, a cancelled one cancelled by its challenger or
   * ended by a block between the two, and an expired one is past its time.
   */
  lemma {:induction false} EveryStatusHasItsReason(events: seq<Event>, start: int)
    ensures AllJustified(events, Run(Opening(start), events))
    decreases |events|
  {
    if events == [] {
    } else {
      var init := events[..|events| - 1];
      EveryStatusHasItsReason(init, start);
      StepJustifies(init, Run(Opening(start), init), events[|events| - 1]);
      assert init + [events[|events| - 1]] == events;
    }
  }

  // ---- nobody is seated without having agreed ----------------------------------------------------------

  /** The player sent the challenge or accepted it. */
  ghost predicate Agreed(events: seq<Event>, c: Challenge, i: nat, user: UserId) {
    exists k :: 0 <= k < |events| &&
      ((user == c.challenger && IsCreate(events[k], c)) || (user == c.challenged && IsAccept(events[k], c, i)))
  }

  /** Every player of a match made from challenges has sent one of its two challenges or accepted it. */
  lemma {:induction false} EveryPlayerAgreed(events: seq<Event>, start: int, g: nat, user: UserId)
    requires var b := Run(Opening(start), events).board;
      g < |b.games| && b.games[g].paired && user in b.games[g].players
    ensures var b := Run(Opening(start), events).board;
      exists i: nat :: i < |b.challenges| && b.challenges[i].game == Some(g) && Agreed(events, b.challenges[i], i, user)
  {
    var w := Run(Opening(start), events);
    RunIsGood(events, start);
    EveryStatusHasItsReason(events, start);
    assert Made(w.board, g);
    var i: nat, j: nat :| MadeFrom(w.board, g, i, j);
    var c, d := w.board.challenges[i], w.board.challenges[j];
    assert user in {c.challenger, c.challenged, d.challenger, d.challenged};
    if user in {c.challenger, c.challenged} {
      MatchedAgreed(events, c, i, user, w.now);
    } else {
      MatchedAgreed(events, d, j, user, w.now);
    }
  }

  lemma {:induction false} MatchedAgreed(events: seq<Event>, c: Challenge, i: nat, user: UserId, now: int)
    requires Justified(events, c, i, now) && c.status == Matched && user in {c.challenger, c.challenged}
    ensures Agreed(events, c, i, user)
  {
    var k :| 0 <= k < |events| && IsCreate(events[k], c);
    var j :| 0 <= j < |events| && Explains(events[j], c, i);
    assert IsAccept(events[j], c, i);
  }
}
