/** Commands on a match row. */
module MatchCommands {
  // `MatchesService.command`: under the row lock of the match, a command is dropped
  // as a duplicate, refused, or applied to the snapshot with one event.
  import opened Common
  import opened SpadesEngine
  import opened GameEvents

  datatype Issued = Issued(user: UserId, key: nat, expected: nat, result: nat, seat: nat, command: Command,
      deck: seq<Card>)
  /** An event row; the actor of a disqualification is none. */
  datatype Logged = Logged(sequence: nat, actor: Option<UserId>, event: Event)

  /** A match with its command and event rows; `players` is in seat order. */
  datatype Game = Game(players: seq<UserId>, revealed: seq<nat>, state: State, version: nat, commands: seq<Issued>,
      events: seq<Logged>)

  datatype Refusal = NotSeated | Unauthorized | Stale | HandSeen | NotTimedOut | Broken(rule: RuleError)

  datatype Reply = Refused(why: Refusal) | Duplicate | Done(game: Game)

  /**
   * `authorized`: a valid entry token; `late`: the turn's deadline has passed; `deck`: the shuffle for a possible
   * next hand.
   */
  datatype Request = Request(user: UserId, authorized: bool, key: nat, expected: nat, command: Command, late: bool,
      deck: seq<Card>)

  // ---- the command ----------------------------------------------------------------

  function SeatOf(players: seq<UserId>, user: UserId, from: nat): (seat: Option<nat>)
    requires from <= |players|
    ensures seat.Some? ==> from <= seat.value < |players| && players[seat.value] == user
    ensures seat.None? ==> forall i :: from <= i < |players| ==> players[i] != user
    decreases |players| - from
  {
    if from == |players| then None
    else if players[from] == user then Some(from)
    else SeatOf(players, user, from + 1)
  }

  predicate Used(commands: seq<Issued>, user: UserId, key: nat) {
    exists i :: 0 <= i < |commands| && commands[i].user == user && commands[i].key == key
  }

  /** What is logged for a command that led from `s` to `n`. */
  function EventFor(s: State, n: State, seat: nat, c: Command): Event
    requires Formed(n)
  {
    match c
    case MakeBid(bid) => Event(BidPlaced, Some(seat), Some(bid.amount), None, None)
    case PlayOne(card) =>
      var kind := if n.phase == Completed then MatchCompleted
                  else if n.handNumber != s.handNumber then HandCompleted
                  else if |s.trick| == 3 then TrickCompleted
                  else CardPlayed;
      Event(kind, Some(seat), None, Some(card), Some((n.scores[0], n.scores[1])))
    case ClaimTimeout => Event(TurnTimedOut, None, None, None, None)
    case GiveUp => Event(PlayerForfeited, Some(seat), None, None, None)
  }

  predicate Fits(g: Game) {
    |g.players| == 4 && |g.revealed| == 4 && Playable(g.state)
  }

  /** The refusals that are decided before the rules are asked. */
  function EarlyRefusal(g: Game, r: Request, seat: nat): Option<Refusal>
    requires Fits(g) && seat < 4
  {
    if g.version != r.expected then Some(Stale)
    else if r.command.MakeBid? && r.command.bid.blindNil && g.revealed[seat] >= g.state.handNumber then Some(HandSeen)
    else if r.command.ClaimTimeout? && !r.late then Some(NotTimedOut)
    else None
  }

  function Submit(g: Game, r: Request): Reply
    requires Fits(g)
  {
    var seat := SeatOf(g.players, r.user, 0);
    if seat == None then Refused(NotSeated)
    else if !r.authorized then Refused(Unauthorized)
    else if Used(g.commands, r.user, r.key) then Duplicate
    else if EarlyRefusal(g, r, seat.value).Some? then Refused(EarlyRefusal(g, r, seat.value).value)
    else
      match Perform(g.state, seat.value, r.command, r.deck)
      case Err(rule) => Refused(Broken(rule))
      case Ok(n) => Done(Applied(g, r, seat.value, n))
  }

  function Applied(g: Game, r: Request, seat: nat, n: State): Game
    requires Formed(n)
  {
    g.(state := n,
       version := n.version,
       commands := g.commands + [Issued(r.user, r.key, r.expected, n.version, seat, r.command, r.deck)],
       events := g.events + [Logged(n.version, Some(r.user), EventFor(g.state, n, seat, r.command))])
  }

  // ---- what always holds ---------------------------------------------------------------

  /** One accepted command and the event logged for it. */
  ghost predicate IsMove(s: State, m: Issued, e: Event, n: State) {
    Playable(s) && m.seat < 4 && Perform(s, m.seat, m.command, m.deck) == Ok(n) &&
      e == EventFor(s, n, m.seat, m.command)
  }

  ghost predicate MoveAt(states: seq<State>, commands: seq<Issued>, events: seq<Logged>, i: nat)
    requires i + 1 < |states| && i < |commands| && i + 1 < |events|
  {
    IsMove(states[i], commands[i], events[i + 1].event, states[i + 1])
  }

  /** The snapshots between accepted commands, oldest first, and the log they leave. */
  ghost predicate IsTrail(states: seq<State>, commands: seq<Issued>, events: seq<Logged>) {
    && |states| == |events| == |commands| + 1
    && events[0].event.kind == MatchCreated
    && (forall i: nat {:trigger MoveAt(states, commands, events, i)} :: i < |commands| ==>
       MoveAt(states, commands, events, i))
  }

  /** The engine folded over the accepted commands leads from `start` to `end`. */
  ghost predicate Folds(start: State, commands: seq<Issued>, events: seq<Logged>, end: State) {
    exists states :: IsTrail(states, commands, events) && states[0] == start && states[|commands|] == end
  }

  /** At most one row per user and idempotency key. */
  ghost predicate EffectOnce(commands: seq<Issued>) {
    forall i, j :: 0 <= i < j < |commands| ==>
      !(commands[i].user == commands[j].user && commands[i].key == commands[j].key)
  }

  ghost predicate Consistent(start: State, g: Game) {
    && Fits(g) && Fair(g.state) && g.state.version == g.version
    && |g.events| == g.version == |g.commands| + 1
    && (forall i :: 0 <= i < |g.events| ==> g.events[i].sequence == i + 1)
    && (forall i :: 0 <= i < |g.commands| ==> g.commands[i].expected == i + 1 && g.commands[i].result == i + 2)
    && EffectOnce(g.commands)
    && Folds(start, g.commands, g.events, g.state)
  }

  function Opening(players: seq<UserId>, deck: seq<Card>, dealer: nat): Game {
    Game(players, [0, 0, 0, 0], Start(deck, dealer), 1, [],
      [Logged(1, Some(if |players| > 0 then players[0] else 0), Event(MatchCreated, None, None, None, None))])
  }

  lemma {:induction false} OpeningIsConsistent(players: seq<UserId>, deck: seq<Card>, dealer: nat)
    requires |players| == 4 && ValidDeck(deck) && dealer < 4
    ensures Consistent(Start(deck, dealer), Opening(players, deck, dealer))
  {
    StartIsFair(deck, dealer);
    var g := Opening(players, deck, dealer);
    assert IsTrail([g.state], g.commands, g.events);
  }

  lemma {:induction false} FoldsOneMore(start: State, commands: seq<Issued>, events: seq<Logged>, mid: State,
      next: Issued, logged: Logged, end: State)
    requires Folds(start, commands, events, mid) && IsMove(mid, next, logged.event, end)
    ensures Folds(start, commands + [next], events + [logged], end)
  {
    var states :| IsTrail(states, commands, events) && states[0] == start && states[|commands|] == mid;
    var after := states + [end];
    forall i: nat | i < |commands| + 1 ensures MoveAt(after, commands + [next], events + [logged], i) {
      if i < |commands| { assert MoveAt(states, commands, events, i); }
    }
    assert IsTrail(after, commands + [next], events + [logged]);
  }

  lemma {:induction false} AppliedIsConsistent(start: State, g: Game, r: Request, seat: nat, n: State)
    requires Consistent(start, g) && seat < 4 && Perform(g.state, seat, r.command, r.deck) == Ok(n)
    requires r.expected == g.version && !Used(g.commands, r.user, r.key)
    ensures Formed(n) && Consistent(start, Applied(g, r, seat, n))
  {
    PerformKeepsFair(g.state, seat, r.command, r.deck);
    FoldsOneMore(start, g.commands, g.events, g.state,
      Issued(r.user, r.key, r.expected, n.version, seat, r.command, r.deck),
      Logged(n.version, Some(r.user), EventFor(g.state, n, seat, r.command)), n);
  }

  lemma {:induction false} SubmitKeepsConsistent(start: State, g: Game, r: Request)
    requires Consistent(start, g)
    ensures Submit(g, r).Done? ==> Consistent(start, Submit(g, r).game) && Submit(g, r).game.version == g.version + 1
  {
    if Submit(g, r).Done? {
      var seat := SeatOf(g.players, r.user, 0).value;
      AppliedIsConsistent(start, g, r, seat, Perform(g.state, seat, r.command, r.deck).value);
    }
  }

  /** A repeated key changes nothing, whatever the repeated request contains and however stale it is. */
  lemma {:induction false} RepeatsAreDropped(start: State, g: Game, r: Request)
    requires Consistent(start, g) && Used(g.commands, r.user, r.key) && r.authorized && r.user in g.players
    ensures Submit(g, r) == Duplicate
  {
  }

  // ---- a disqualification ----------------------------------------------------------------

  function ForfeitEvent(seat: nat): Event {
    Event(PlayerForfeited, Some(seat), None, None, None)
  }

  /** A tournament disqualifies the player: a running match is forfeited with an event and no command row. */
  function Expelled(g: Game, user: UserId): Game
    requires Fits(g)
  {
    var seat := SeatOf(g.players, user, 0);
    if seat == None || !Running(g.state) then g
    else
      var n := Forfeit(g.state, seat.value).value;
      g.(state := n, version := n.version, events := g.events + [Logged(n.version, None, ForfeitEvent(seat.value))])
  }

  /** A consistent match that was forfeited by a disqualification. */
  ghost predicate Forced(start: State, g: Game) {
    exists b, user :: Consistent(start, b) && Running(b.state) && user in b.players && g == Expelled(b, user)
  }

  lemma {:induction false} ExpulsionShape(start: State, b: Game, user: UserId)
    requires Consistent(start, b) && Running(b.state) && user in b.players
    ensures var e := Expelled(b, user);
      && e.players == b.players && e.revealed == b.revealed && e.commands == b.commands
      && |e.events| == |b.events| + 1 && e.events[..|b.events|] == b.events
      && e.events[|b.events|] == Logged(b.version + 1, None, ForfeitEvent(SeatOf(b.players, user, 0).value))
      && e.version == b.version + 1 && Forfeit(b.state, SeatOf(b.players, user, 0).value) == Ok(e.state)
  {
  }

  lemma {:induction false} ExpelledIsNumbered(start: State, b: Game, user: UserId, e: Game)
    requires Consistent(start, b) && Running(b.state) && user in b.players && e == Expelled(b, user)
    ensures Fits(e) && Fair(e.state) && e.state.phase == Forfeited && EffectOnce(e.commands)
    ensures e.state.version == e.version == |e.events| == |e.commands| + 2
    ensures forall i :: 0 <= i < |e.events| ==> e.events[i].sequence == i + 1
  {
    ExpulsionShape(start, b, user);
    ForfeitKeepsFair(b.state, SeatOf(b.players, user, 0).value);
    forall i | 0 <= i < |e.events| ensures e.events[i].sequence == i + 1 {
      if i < |b.events| { assert e.events[i] == e.events[..|b.events|][i]; }
    }
  }

  lemma {:induction false} ForcedIsNumbered(start: State, g: Game)
    requires Forced(start, g)
    ensures Fits(g) && Fair(g.state) && g.state.phase == Forfeited && EffectOnce(g.commands)
    ensures g.state.version == g.version == |g.events| == |g.commands| + 2
    ensures forall i :: 0 <= i < |g.events| ==> g.events[i].sequence == i + 1
  {
    var b, user :| Consistent(start, b) && Running(b.state) && user in b.players && g == Expelled(b, user);
    ExpelledIsNumbered(start, b, user, g);
  }

  lemma {:induction false} OverRefusesCommands(g: Game, r: Request)
    requires Fits(g) && g.state.phase == Forfeited
    ensures !Submit(g, r).Done?
  {
  }

  /** After a disqualification has forfeited a match nothing is ever written to it again. */
  lemma {:induction false} ForcedStays(start: State, g: Game, a: Act)
    requires Forced(start, g)
    ensures Fits(g) && After(g, a) == g && !Accepts(g, a)
  {
    ForcedIsNumbered(start, g);
    if a.Send? { OverRefusesCommands(g, a.request); }
  }

  // ---- every run ------------------------------------------------------------------------

  datatype Act = Send(request: Request) | Disqualify(user: UserId)

  function After(g: Game, a: Act): Game
    requires Fits(g)
  {
    match a
    case Send(r) => (match Submit(g, r) case Done(n) => n case _ => g)
    case Disqualify(user) => Expelled(g, user)
  }

  ghost predicate StepAt(games: seq<Game>, acts: seq<Act>, i: nat)
    requires i < |acts| && i + 1 < |games|
  {
    Fits(games[i]) && games[i + 1] == After(games[i], acts[i])
  }

  /** The match before, between and after the requests and disqualifications. */
  ghost predicate IsRun(games: seq<Game>, acts: seq<Act>) {
    |games| == |acts| + 1 && forall i: nat {:trigger StepAt(games, acts, i)} :: i < |acts| ==> StepAt(games, acts, i)
  }

  predicate Accepts(g: Game, a: Act)
    requires Fits(g)
  {
    a.Send? && Submit(g, a.request).Done?
  }

  /** How many of the first `n` acts were accepted commands. */
  ghost function AcceptedAmong(games: seq<Game>, acts: seq<Act>, n: nat): nat
    requires IsRun(games, acts) && n <= |acts|
  {
    if n == 0 then 0
    else
      assert StepAt(games, acts, n - 1);
      AcceptedAmong(games, acts, n - 1) + (if Accepts(games[n - 1], acts[n - 1]) then 1 else 0)
  }

  lemma {:induction false} ActKeepsSound(start: State, g: Game, a: Act)
    requires Consistent(start, g)
    ensures Consistent(start, After(g, a)) || Forced(start, After(g, a))
    ensures |After(g, a).commands| == |g.commands| + (if Accepts(g, a) then 1 else 0)
  {
    match a {
      case Send(r) => SubmitKeepsConsistent(start, g, r);
      case Disqualify(user) =>
        if Running(g.state) && user in g.players { assert Forced(start, Expelled(g, user)); }
    }
  }

  /**
   * For any stream of requests and disqualifications, with any repeats and refusals: each
   * user and key takes effect at most once, events are numbered 1, 2, 3 up to the version,
   * and the snapshot is the engine folded over the accepted commands in order, forfeited
   * once more at the end if a disqualification struck while the match was running.
   */
  lemma {:induction false} EveryRun(players: seq<UserId>, deck: seq<Card>, dealer: nat, games: seq<Game>,
      acts: seq<Act>, n: nat)
    requires |players| == 4 && ValidDeck(deck) && dealer < 4
    requires IsRun(games, acts) && games[0] == Opening(players, deck, dealer) && n <= |acts|
    ensures Consistent(Start(deck, dealer), games[n]) || Forced(Start(deck, dealer), games[n])
    ensures (forall i :: 0 <= i < n ==> acts[i].Send?) ==> Consistent(Start(deck, dealer), games[n])
    ensures EffectOnce(games[n].commands) && |games[n].commands| == AcceptedAmong(games, acts, n)
    ensures |games[n].events| == games[n].version && games[n].state.version == games[n].version
    ensures forall i :: 0 <= i < |games[n].events| ==> games[n].events[i].sequence == i + 1
  {
    OpeningIsConsistent(players, deck, dealer);
    FromConsistent(Start(deck, dealer), games, acts, n);
    if forall i :: 0 <= i < n ==> acts[i].Send? { CommandsKeepConsistent(Start(deck, dealer), games, acts, n); }
    if Forced(Start(deck, dealer), games[n]) { ForcedIsNumbered(Start(deck, dealer), games[n]); }
  }

  lemma {:induction false} FromConsistent(start: State, games: seq<Game>, acts: seq<Act>, n: nat)
    requires IsRun(games, acts) && Consistent(start, games[0]) && games[0].commands == [] && n <= |acts|
    ensures Consistent(start, games[n]) || Forced(start, games[n])
    ensures |games[n].commands| == AcceptedAmong(games, acts, n)
  {
    if n == 0 {
    } else {
      FromConsistent(start, games, acts, n - 1);
      OneMoreAct(start, games, acts, n);
    }
  }

  /** Commands alone never force a match. */
  lemma {:induction false} CommandsKeepConsistent(start: State, games: seq<Game>, acts: seq<Act>, n: nat)
    requires IsRun(games, acts) && Consistent(start, games[0]) && n <= |acts|
    requires forall i :: 0 <= i < n ==> acts[i].Send?
    ensures Consistent(start, games[n])
  {
    if n == 0 {
    } else {
      CommandsKeepConsistent(start, games, acts, n - 1);
      assert StepAt(games, acts, n - 1);
      SubmitKeepsConsistent(start, games[n - 1], acts[n - 1].request);
    }
  }

  lemma {:induction false} OneMoreAct(start: State, games: seq<Game>, acts: seq<Act>, n: nat)
    requires IsRun(games, acts) && 0 < n <= |acts|
    requires Consistent(start, games[n - 1]) || Forced(start, games[n - 1])
    requires |games[n - 1].commands| == AcceptedAmong(games, acts, n - 1)
    ensures Consistent(start, games[n]) || Forced(start, games[n])
    ensures |games[n].commands| == AcceptedAmong(games, acts, n)
  {
    assert StepAt(games, acts, n - 1);
    if Consistent(start, games[n - 1]) {
      ActKeepsSound(start, games[n - 1], acts[n - 1]);
    } else {
      ForcedStays(start, games[n - 1], acts[n - 1]);
    }
  }

  // ---- the service ------------------------------------------------------------------------

  datatype Answer = Rejected(why: Refusal) | AlreadyDone | Accepted

  /** One match row with its commands and events; the row lock makes each call one step. */
  class Match {
    var players: seq<UserId>
    var revealed: seq<nat>
    var state: State
    var version: nat
    var commands: seq<Issued>
    var events: seq<Logged>

    function Value(): Game
      reads this
    {
      Game(players, revealed, state, version, commands, events)
    }

    constructor (players: seq<UserId>, deck: seq<Card>, dealer: nat)
      requires |players| == 4 && ValidDeck(deck) && dealer < 4
      ensures Value() == Opening(players, deck, dealer)
      ensures Consistent(Start(deck, dealer), Value())
    {
      this.players := players;
      revealed := [0, 0, 0, 0];
      state := Start(deck, dealer);
      version := 1;
      commands := [];
      events := [Logged(1, Some(players[0]), Event(MatchCreated, None, None, None, None))];
      new;
      OpeningIsConsistent(players, deck, dealer);
    }

    method Command(r: Request, ghost start: State) returns (answer: Answer)
      requires Consistent(start, Value()) || Forced(start, Value())
      modifies this`state, this`version, this`commands, this`events
      ensures Consistent(start, Value()) || Forced(start, Value())
      ensures match Submit(old(Value()), r)
              case Refused(why) => answer == Rejected(why) && Value() == old(Value())
              case Duplicate => answer == AlreadyDone && Value() == old(Value())
              case Done(next) => answer == Accepted && Value() == next
    {
      if Forced(start, Value()) {
        ForcedIsNumbered(start, Value());
        OverRefusesCommands(Value(), r);
      }
      var seat := SeatOf(players, r.user, 0);
      if seat == None {
        return Rejected(NotSeated);
      }
      if !r.authorized {
        return Rejected(Unauthorized);
      }
      if Used(commands, r.user, r.key) {
        return AlreadyDone;
      }
      if version != r.expected {
        return Rejected(Stale);
      }
      if r.command.MakeBid? && r.command.bid.blindNil && revealed[seat.value] >= state.handNumber {
        return Rejected(HandSeen);
      }
      if r.command.ClaimTimeout? && !r.late {
        return Rejected(NotTimedOut);
      }
      var outcome := Perform(state, seat.value, r.command, r.deck);
      if outcome.Err? {
        return Rejected(Broken(outcome.error));
      }
      var next := outcome.value;
      AppliedIsConsistent(start, Value(), r, seat.value, next);
      WriteAccepted(r, seat.value, next);
      answer := Accepted;
    }

    /** The part of a tournament's disqualification that touches a match. */
    method Disqualify(user: UserId, ghost start: State)
      requires Consistent(start, Value()) || Forced(start, Value())
      modifies this`state, this`version, this`events
      ensures Value() == Expelled(old(Value()), user)
      ensures Consistent(start, Value()) || Forced(start, Value())
    {
      if Forced(start, Value()) { ForcedIsNumbered(start, Value()); }
      var seat := SeatOf(players, user, 0);
      if seat == None || !Running(state) {
        return;
      }
      assert Forced(start, Expelled(Value(), user));
      var next := Forfeit(state, seat.value).value;
      events := events + [Logged(next.version, None, ForfeitEvent(seat.value))];
      state := next;
      version := next.version;
    }

    /** The rows an accepted command writes. */
    method WriteAccepted(r: Request, seat: nat, next: State)
      requires Formed(state) && Formed(next)
      modifies this`state, this`version, this`commands, this`events
      ensures Value() == Applied(old(Value()), r, seat, next)
    {
      commands := commands + [Issued(r.user, r.key, r.expected, next.version, seat, r.command, r.deck)];
      events := events + [Logged(next.version, Some(r.user), EventFor(state, next, seat, r.command))];
      state := next;
      version := next.version;
    }
  }
}
