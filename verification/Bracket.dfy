/** The single-elimination bracket. */
module Bracket {
  // The brackets of `TournamentProgressionService` as values: the specification its
  // methods are proved against, and what holds in every reachable bracket.
  import opened Common

  datatype TournamentStatus = Registering | InProgress | Completed | Cancelled
  datatype TeamStatus = Active | Eliminated | RunnerUp | Champion | TeamDisqualified
  datatype MatchStatus = Playing | Finished | Forfeited
  datatype Failure = InvalidTeams | BracketNotActive | MissingWinner | DuplicateMatch | LedgerRefused | Rejected

  datatype Pair = Pair(first: UserId, second: UserId)

  datatype Team = Team(status: TeamStatus, placement: Option<nat>, eliminatedRound: Option<nat>)

  datatype Seat = Seat(user: UserId, seat: nat, side: nat, team: nat)

  /** `winner` is the side (0 or 1) that won; `applied` is `resultAppliedAt` being set. */
  datatype Match = Match(seats: seq<Seat>, status: MatchStatus, winner: Option<nat>, applied: bool)

  /** Position of a match: round 1 is the first round, slots count from 0. */
  datatype Key = Key(round: nat, slot: nat)

  datatype Tree = Tree(
    rounds: nat,
    status: TournamentStatus,
    members: seq<Pair>,
    teams: seq<Team>,
    matches: map<Key, Match>)

  function Pow2(k: nat): (p: nat)
    ensures p >= 1
  {
    if k == 0 then 1 else 2 * Pow2(k - 1)
  }

  // ---- createMatch ---------------------------------------------------------

  /** Team mates sit opposite each other: seats 0 and 2 against 1 and 3. */
  function SeatsFor(one: nat, onePlayers: Pair, two: nat, twoPlayers: Pair): seq<Seat> {
    [Seat(onePlayers.first, 0, 0, one), Seat(twoPlayers.first, 1, 1, two),
     Seat(onePlayers.second, 2, 0, one), Seat(twoPlayers.second, 3, 1, two)]
  }

  function NewMatch(one: nat, onePlayers: Pair, two: nat, twoPlayers: Pair): Match {
    Match(SeatsFor(one, onePlayers, two, twoPlayers), Playing, None, false)
  }

  // ---- reading a match -----------------------------------------------------

  /** `seats.find(seat => seat.team === side)`, its tournament team. */
  function TeamOnSide(seats: seq<Seat>, side: nat): Option<nat> {
    if seats == [] then None
    else if seats[0].side == side then Some(seats[0].team)
    else TeamOnSide(seats[1..], side)
  }

  /** The first team in seat order that is not `team`. */
  function OtherTeam(seats: seq<Seat>, team: nat): Option<nat> {
    if seats == [] then None
    else if seats[0].team != team then Some(seats[0].team)
    else OtherTeam(seats[1..], team)
  }

  function TeamIds(seats: seq<Seat>): set<nat> {
    set i | 0 <= i < |seats| :: seats[i].team
  }

  /** The players of `team` in seat order; seats are stored in seat order. */
  function PlayersOf(seats: seq<Seat>, team: nat): seq<UserId> {
    if seats == [] then []
    else if seats[0].team == team then [seats[0].user] + PlayersOf(seats[1..], team)
    else PlayersOf(seats[1..], team)
  }

  datatype Outcome = Outcome(winner: nat, loser: nat)

  /** Winner and loser of a match row, or the conflict the service raises. */
  function OutcomeOf(m: Match): Result<Outcome, Failure>
    requires m.winner.Some?
  {
    var winner := TeamOnSide(m.seats, m.winner.value);
    if winner == None then Err(InvalidTeams)
    else
      var loser := OtherTeam(m.seats, winner.value);
      if loser == None || |TeamIds(m.seats)| != 2 then Err(InvalidTeams)
      else Ok(Outcome(winner.value, loser.value))
  }

  // ---- applyCompletedMatch -------------------------------------------------

  /** The guard under which a result is applied; otherwise the call is a no-op. */
  predicate Applicable(t: Tree, key: Key) {
    && key in t.matches
    && !t.matches[key].applied
    && t.matches[key].winner.Some?
    && t.matches[key].status != Playing
  }

  function LoserRow(t: Tree, key: Key, team: Team): Team
    requires key.round <= t.rounds
  {
    Team(if team.status == TeamDisqualified then TeamDisqualified
         else if key.round == t.rounds then RunnerUp
         else Eliminated,
         Some(Pow2(t.rounds - key.round) + 1),
         Some(key.round))
  }

  /** The rows after the loser, the match and (in the final) the champion have been written. */
  function WithResult(t: Tree, key: Key, o: Outcome): Tree
    requires key in t.matches && key.round <= t.rounds
    requires o.winner < |t.teams| && o.loser < |t.teams|
  {
    var teams := t.teams[o.loser := LoserRow(t, key, t.teams[o.loser])];
    var matches := t.matches[key := t.matches[key].(applied := true)];
    if key.round == t.rounds then
      t.(teams := teams[o.winner := teams[o.winner].(status := Champion, placement := Some(1))],
         matches := matches,
         status := Completed)
    else
      t.(teams := teams, matches := matches)
  }

  function ParentOf(key: Key): Key {
    Key(key.round + 1, key.slot / 2)
  }

  /** Creates the next match once both of its sources have been applied. */
  function Advance(t: Tree, key: Key): Result<Tree, Failure> {
    var slot := key.slot / 2;
    var left := Key(key.round, 2 * slot);
    var right := Key(key.round, 2 * slot + 1);
    if !(left in t.matches && t.matches[left].applied && right in t.matches && t.matches[right].applied) then Ok(t)
    else
      var one := WinnerEntry(t.matches[left]);
      var two := WinnerEntry(t.matches[right]);
      if one.Err? then Err(one.error)
      else if two.Err? then Err(two.error)
      else if ParentOf(key) in t.matches then Err(DuplicateMatch)
      else Ok(t.(matches := t.matches[ParentOf(key) :=
                   NewMatch(one.value.team, one.value.players, two.value.team, two.value.players)]))
  }

  datatype Entrant = Entrant(team: nat, players: Pair)

  function WinnerEntry(m: Match): Result<Entrant, Failure> {
    var team := if m.winner.None? then None else TeamOnSide(m.seats, m.winner.value);
    if team.None? then Err(MissingWinner)
    else
      var players := PlayersOf(m.seats, team.value);
      if |players| < 2 then Err(MissingWinner) else Ok(Entrant(team.value, Pair(players[0], players[1])))
  }

  /** The bracket half of `applyCompletedMatch`; settlement of the final is separate. */
  function Apply(t: Tree, key: Key): Result<Tree, Failure> {
    if !Applicable(t, key) then Ok(t)
    else
      var o := OutcomeOf(t.matches[key]);
      if o.Err? then Err(o.error)
      else if t.status != InProgress || t.rounds == 0 then Err(BracketNotActive)
      else if key.round > t.rounds || o.value.winner >= |t.teams| || o.value.loser >= |t.teams| then Err(InvalidTeams)
      else
        var next := WithResult(t, key, o.value);
        if key.round == t.rounds then Ok(next) else Advance(next, key)
  }

  // ---- the other steps -----------------------------------------------------

  /** The game engine ends a match: by play, or by a forfeit. */
  function Finish(t: Tree, key: Key, side: nat, forfeited: bool): Tree {
    if key in t.matches && t.matches[key].status == Playing && side < 2 then
      t.(matches := t.matches[key := t.matches[key].(status := if forfeited then Forfeited else Finished,
                                                     winner := Some(side))])
    else t
  }

  function MarkDisqualified(t: Tree, team: nat): Tree {
    if team < |t.teams| then t.(teams := t.teams[team := t.teams[team].(status := TeamDisqualified)]) else t
  }

  predicate Seated(m: Match, user: UserId) {
    exists i :: 0 <= i < |m.seats| && m.seats[i].user == user
  }

  /** The match rows `disqualifyPlayer` looks for: unfinished, with this player seated. */
  function ActiveMatchesOf(t: Tree, user: UserId): set<Key> {
    set key | key in t.matches && t.matches[key].status == Playing && Seated(t.matches[key], user)
  }

  function SideOf(seats: seq<Seat>, user: UserId): nat {
    if seats == [] then 0 else if seats[0].user == user then seats[0].side else SideOf(seats[1..], user)
  }

  // ---- start ---------------------------------------------------------------

  /** Round 1 pairs teams 2s and 2s+1. */
  function FirstRound(members: seq<Pair>): map<Key, Match> {
    map s: nat | s < |members| / 2 :: Key(1, s) :=
      NewMatch(2 * s, members[2 * s], 2 * s + 1, members[2 * s + 1])
  }

  function NewTeams(n: nat): seq<Team> {
    seq(n, i => Team(Active, None, None))
  }

  function Begin(rounds: nat, members: seq<Pair>): Tree {
    Tree(rounds, InProgress, members, NewTeams(|members|), FirstRound(members))
  }

  // ---- the invariant -------------------------------------------------------

  predicate InTree(rounds: nat, key: Key) {
    1 <= key.round <= rounds && key.slot < Pow2(rounds - key.round)
  }

  /** The slot of round r that team `t` can only ever play in. */
  function Ancestor(team: nat, r: nat): nat {
    if r == 0 then team else Ancestor(team, r - 1) / 2
  }

  /** The teams of a match as `createMatch` seats them. */
  ghost predicate Seats(t: Tree, key: Key, one: nat, two: nat) {
    && key in t.matches
    && one < |t.members| && two < |t.members|
    && t.matches[key].seats == SeatsFor(one, t.members[one], two, t.members[two])
  }

  function One(m: Match): nat { if |m.seats| == 4 then m.seats[0].team else 0 }
  function Two(m: Match): nat { if |m.seats| == 4 then m.seats[1].team else 0 }
  function WinnerOf(m: Match): nat { if m.winner == Some(0) then One(m) else Two(m) }
  function LoserOf(m: Match): nat { if m.winner == Some(0) then Two(m) else One(m) }

  ghost predicate MatchOk(t: Tree, key: Key)
    requires key in t.matches
  {
    var m := t.matches[key];
    && InTree(t.rounds, key)
    && Seats(t, key, One(m), Two(m))
    && Ancestor(One(m), key.round - 1) == 2 * key.slot
    && Ancestor(Two(m), key.round - 1) == 2 * key.slot + 1
    && (m.status == Playing <==> m.winner == None)
    && (m.winner.Some? ==> m.winner.value < 2)
    && (m.applied ==> m.status != Playing)
  }

  predicate AppliedAt(t: Tree, key: Key) {
    key in t.matches && t.matches[key].applied
  }

  function Left(key: Key): Key
    requires key.round > 0
  {
    Key(key.round - 1, 2 * key.slot)
  }

  function Right(key: Key): Key
    requires key.round > 0
  {
    Key(key.round - 1, 2 * key.slot + 1)
  }

  /** A later match exists exactly when both its sources have been applied, and holds their winners in slot order. */
  ghost predicate Linked(t: Tree, key: Key)
    requires key.round > 0
  {
    && (key in t.matches <==> AppliedAt(t, Left(key)) && AppliedAt(t, Right(key)))
    && (key in t.matches ==>
          && One(t.matches[key]) == WinnerOf(t.matches[Left(key)])
          && Two(t.matches[key]) == WinnerOf(t.matches[Right(key)]))
  }

  ghost predicate AllMatchesOk(t: Tree) {
    forall k {:trigger MatchOk(t, k)} :: k in t.matches ==> MatchOk(t, k)
  }

  ghost predicate AllLinked(t: Tree) {
    forall key: Key {:trigger Linked(t, key)} :: InTree(t.rounds, key) && key.round > 1 ==> Linked(t, key)
  }

  ghost predicate Shape(t: Tree) {
    && t.rounds >= 1
    && |t.members| == |t.teams| == Pow2(t.rounds)
    && AllMatchesOk(t)
    && (forall key: Key {:trigger key in t.matches} :: InTree(t.rounds, key) && key.round == 1 ==> key in t.matches)
    && AllLinked(t)
    && t.status in {InProgress, Completed}
    && (t.status == Completed <==> AppliedAt(t, Key(t.rounds, 0)))
  }

  // ---- every step keeps the shape -------------------------------------------

  lemma {:induction false} FirstRoundMatch(rounds: nat, members: seq<Pair>, key: Key)
    requires rounds >= 1 && |members| == Pow2(rounds)
    ensures key in FirstRound(members) <==> InTree(rounds, key) && key.round == 1
    ensures key in FirstRound(members) ==> MatchOk(Begin(rounds, members), key)
    ensures !AppliedAt(Begin(rounds, members), key)
  {
    if InTree(rounds, key) && key.round == 1 {
      assert key == Key(1, key.slot) && key.slot < |members| / 2;
    }
    assert Ancestor(2 * key.slot, 0) == 2 * key.slot;
  }

  lemma {:induction false} BeginHasShape(rounds: nat, members: seq<Pair>)
    requires rounds >= 1 && |members| == Pow2(rounds)
    ensures Shape(Begin(rounds, members))
  {
    var t := Begin(rounds, members);
    forall key ensures key in t.matches <==> InTree(rounds, key) && key.round == 1 {
      FirstRoundMatch(rounds, members, key);
    }
    forall key | key in t.matches ensures MatchOk(t, key) { FirstRoundMatch(rounds, members, key); }
    forall key: Key | InTree(rounds, key) && key.round > 1 ensures Linked(t, key) {
      FirstRoundMatch(rounds, members, Left(key));
    }
    FirstRoundMatch(rounds, members, Key(rounds, 0));
  }

  /** The row `Finish` writes is well formed and differs only in status and winner. */
  lemma {:induction false} FinishKeepsMatch(t: Tree, key: Key, side: nat, forfeited: bool, k: Key)
    requires k in t.matches && MatchOk(t, k)
    ensures var next := Finish(t, key, side, forfeited);
      && MatchOk(next, k)
      && next.matches[k].seats == t.matches[k].seats
      && next.matches[k].applied == t.matches[k].applied
      && (t.matches[k].applied ==> next.matches[k] == t.matches[k])
  {
  }

  ghost predicate SameResults(t: Tree, next: Tree) {
    && next.matches.Keys == t.matches.Keys
    && (forall j :: j in t.matches ==>
       next.matches[j].seats == t.matches[j].seats && next.matches[j].applied == t.matches[j].applied)
    && (forall j :: j in t.matches && t.matches[j].applied ==> next.matches[j] == t.matches[j])
  }

  /** Links depend only on which matches exist and on the applied rows. */
  lemma {:induction false} LinksSurvive(t: Tree, next: Tree)
    requires AllLinked(t) && SameResults(t, next) && next.rounds == t.rounds
    ensures AllLinked(next)
  {
    forall k: Key | InTree(t.rounds, k) && k.round > 1 ensures Linked(next, k) { assert Linked(t, k); }
  }

  lemma {:induction false} FinishKeepsMatches(t: Tree, key: Key, side: nat, forfeited: bool)
    requires Shape(t)
    ensures AllMatchesOk(Finish(t, key, side, forfeited)) && SameResults(t, Finish(t, key, side, forfeited))
  {
    var next := Finish(t, key, side, forfeited);
    forall k | k in t.matches
      ensures MatchOk(next, k)
      ensures next.matches[k].seats == t.matches[k].seats
      ensures next.matches[k].applied == t.matches[k].applied
      ensures t.matches[k].applied ==> next.matches[k] == t.matches[k]
    {
      assert MatchOk(t, k);
      FinishKeepsMatch(t, key, side, forfeited, k);
    }
  }

  lemma {:induction false} FinishKeepsShape(t: Tree, key: Key, side: nat, forfeited: bool)
    requires Shape(t)
    ensures Shape(Finish(t, key, side, forfeited))
  {
    FinishKeepsMatches(t, key, side, forfeited);
    LinksSurvive(t, Finish(t, key, side, forfeited));
  }

  lemma {:induction false} DisqualifyKeepsShape(t: Tree, team: nat)
    requires Shape(t)
    ensures Shape(MarkDisqualified(t, team))
  {
    var next := MarkDisqualified(t, team);
    forall k | k in next.matches ensures MatchOk(next, k) { assert MatchOk(t, k); }
    forall k: Key | InTree(t.rounds, k) && k.round > 1 ensures Linked(next, k) { assert Linked(t, k); }
  }

  /** Reading a well-seated match finds the two teams and the two players of each. */
  lemma {:induction false} ReadsBack(one: nat, onePlayers: Pair, two: nat, twoPlayers: Pair)
    requires one != two
    ensures var seats := SeatsFor(one, onePlayers, two, twoPlayers);
      && TeamOnSide(seats, 0) == Some(one) && TeamOnSide(seats, 1) == Some(two)
      && OtherTeam(seats, one) == Some(two) && OtherTeam(seats, two) == Some(one)
      && TeamIds(seats) == {one, two} && |TeamIds(seats)| == 2
      && PlayersOf(seats, one) == [onePlayers.first, onePlayers.second]
      && PlayersOf(seats, two) == [twoPlayers.first, twoPlayers.second]
  {
    var seats := SeatsFor(one, onePlayers, two, twoPlayers);
    var s1, s2, s3 := seats[1..], seats[2..], seats[3..];
    assert s1[1..] == s2 && s2[1..] == s3 && s3[1..] == [];
    assert s1[0] == seats[1] && s2[0] == seats[2] && s3[0] == seats[3];
    assert PlayersOf(s3[1..], one) == [] && PlayersOf(s3[1..], two) == [];
    assert PlayersOf(s3, one) == [] && PlayersOf(s3, two) == [twoPlayers.second];
    assert PlayersOf(s2, one) == [onePlayers.second] && PlayersOf(s2, two) == [twoPlayers.second];
    assert PlayersOf(s1, one) == [onePlayers.second] && PlayersOf(s1, two) == [twoPlayers.first, twoPlayers.second];
    assert TeamOnSide(s1, 1) == Some(two) && OtherTeam(s1, one) == Some(two);
    assert seats[0].team == one && seats[1].team == two;
    assert TeamIds(seats) == {one, two};
  }

  lemma {:induction false} OutcomeIsRight(t: Tree, key: Key)
    requires key in t.matches && MatchOk(t, key) && t.matches[key].winner.Some?
    ensures var m := t.matches[key];
      && OutcomeOf(m) == Ok(Outcome(WinnerOf(m), LoserOf(m)))
      && WinnerEntry(m) == Ok(Entrant(WinnerOf(m), t.members[WinnerOf(m)]))
      && WinnerOf(m) != LoserOf(m)
  {
    var m := t.matches[key];
    ReadsBack(One(m), t.members[One(m)], Two(m), t.members[Two(m)]);
  }

  /**
   * In every match the two teams sit crosswise: seat i belongs to side i % 2, a team's first
   * player before its second. The first round pairs the teams as they were drawn.
   */
  lemma {:induction false} SeatedCrosswise(t: Tree, key: Key, i: nat)
    requires Shape(t) && key in t.matches && i < 4
    ensures |t.matches[key].seats| == 4 && t.matches[key].seats[i].team < |t.members|
    ensures var seats := t.matches[key].seats;
      && seats[i].seat == i && seats[i].side == i % 2 && seats[i].team == seats[i % 2].team
      && seats[0].team != seats[1].team
      && seats[i].user == (if i < 2 then t.members[seats[i].team].first else t.members[seats[i].team].second)
      && (key.round == 1 ==> seats[i].team == 2 * key.slot + i % 2)
  {
    assert MatchOk(t, key);
  }

  lemma {:induction false} AllAppliedBelow(t: Tree, key: Key)
    requires Shape(t) && t.status == Completed && InTree(t.rounds, key)
    ensures AppliedAt(t, key)
    decreases t.rounds - key.round
  {
    if key.round == t.rounds {
      assert key == Key(t.rounds, 0);
    } else {
      var parent := ParentOf(key);
      assert Pow2(t.rounds - key.round) == 2 * Pow2(t.rounds - parent.round);
      AllAppliedBelow(t, parent);
      assert Linked(t, parent);
      assert key == Left(parent) || key == Right(parent);
    }
  }

  lemma {:induction false} ParentInTree(rounds: nat, key: Key)
    requires InTree(rounds, key) && key.round < rounds
    ensures InTree(rounds, ParentOf(key))
    ensures key == Left(ParentOf(key)) || key == Right(ParentOf(key))
  {
    assert Pow2(rounds - key.round) == 2 * Pow2(rounds - key.round - 1);
  }

  lemma {:induction false} ApplicableMeansOpen(t: Tree, key: Key)
    requires Shape(t) && Applicable(t, key)
    ensures t.status == InProgress && InTree(t.rounds, key)
  {
    assert MatchOk(t, key);
    if t.status == Completed {
      AllAppliedBelow(t, key);
    }
  }

  /** What `WithResult` does to the rows, seen from one match. */
  lemma {:induction false} ResultKeepsMatch(t: Tree, key: Key, o: Outcome, k: Key)
    requires key in t.matches && key.round <= t.rounds && o.winner < |t.teams| && o.loser < |t.teams|
    requires k in t.matches && MatchOk(t, k) && t.matches[key].status != Playing
    ensures var next := WithResult(t, key, o);
      && MatchOk(next, k)
      && next.matches.Keys == t.matches.Keys
      && next.matches[k] == if k == key then t.matches[k].(applied := true) else t.matches[k]
  {
  }

  lemma {:induction false} ResultKeepsLink(t: Tree, key: Key, o: Outcome, k: Key)
    requires key in t.matches && key.round <= t.rounds && o.winner < |t.teams| && o.loser < |t.teams|
    requires k.round > 1 && k != ParentOf(key) && Linked(t, k)
    ensures Linked(WithResult(t, key, o), k)
  {
    var next := WithResult(t, key, o);
    assert Left(k) != key && Right(k) != key;
    assert next.matches.Keys == t.matches.Keys;
    assert k in t.matches && k != key ==> next.matches[k] == t.matches[k];
  }

  /** A match whose result is still to come has no parent match yet. */
  lemma {:induction false} NoParentYet(t: Tree, key: Key)
    requires Shape(t) && Applicable(t, key) && InTree(t.rounds, ParentOf(key))
    ensures ParentOf(key) !in t.matches
  {
    assert MatchOk(t, key);
    assert Linked(t, ParentOf(key));
    assert key == Left(ParentOf(key)) || key == Right(ParentOf(key));
  }

  ghost predicate LinkedExcept(t: Tree, parent: Key) {
    forall k: Key {:trigger Linked(t, k)} :: InTree(t.rounds, k) && k.round > 1 && k != parent ==> Linked(t, k)
  }

  /** A result leaves the tree well linked except at its parent, which is not there yet. */
  lemma {:induction false} ResultKeepsLinks(t: Tree, key: Key, o: Outcome)
    requires Shape(t) && Applicable(t, key) && o.winner < |t.teams| && o.loser < |t.teams| && key.round <= t.rounds
    ensures AllMatchesOk(WithResult(t, key, o)) && LinkedExcept(WithResult(t, key, o), ParentOf(key))
    ensures WithResult(t, key, o).matches.Keys == t.matches.Keys
  {
    var next := WithResult(t, key, o);
    forall k | k in next.matches ensures MatchOk(next, k) {
      assert MatchOk(t, k);
      ResultKeepsMatch(t, key, o, k);
    }
    forall k: Key | InTree(next.rounds, k) && k.round > 1 && k != ParentOf(key) ensures Linked(next, k) {
      assert Linked(t, k);
      ResultKeepsLink(t, key, o, k);
    }
  }

  /** The parent of two applied matches, seating their winners, is a well-formed match. */
  lemma {:induction false} ParentIsOk(t: Tree, parent: Key, next: Tree)
    requires parent.round > 1 && InTree(t.rounds, parent)
    requires AppliedAt(t, Left(parent)) && AppliedAt(t, Right(parent))
    requires MatchOk(t, Left(parent)) && MatchOk(t, Right(parent))
    requires var one := WinnerOf(t.matches[Left(parent)]);
             var two := WinnerOf(t.matches[Right(parent)]);
             && next.rounds == t.rounds && next.members == t.members && parent in next.matches
             && one < |t.members| && two < |t.members|
             && next.matches[parent] == NewMatch(one, t.members[one], two, t.members[two])
    ensures MatchOk(next, parent)
    ensures One(next.matches[parent]) == WinnerOf(t.matches[Left(parent)]) &&
      Two(next.matches[parent]) == WinnerOf(t.matches[Right(parent)])
  {
  }

  lemma {:induction false} OtherLinkKept(t: Tree, parent: Key, m: Match, k: Key)
    requires parent !in t.matches && !m.applied && k.round > 1 && k != parent && Linked(t, k)
    ensures Linked(t.(matches := t.matches[parent := m]), k)
  {
  }

  /** Adding the parent of two applied matches, with their winners, restores the links. */
  lemma {:induction false} AddingParent(t: Tree, parent: Key, next: Tree)
    requires t.rounds >= 1 && parent.round > 1 && InTree(t.rounds, parent) && parent !in t.matches
    requires AllMatchesOk(t) && LinkedExcept(t, parent)
    requires AppliedAt(t, Left(parent)) && AppliedAt(t, Right(parent))
    requires var one := WinnerOf(t.matches[Left(parent)]);
             var two := WinnerOf(t.matches[Right(parent)]);
             one < |t.members| && two < |t.members| &&
             next == t.(matches := t.matches[parent := NewMatch(one, t.members[one], two, t.members[two])])
    ensures AllMatchesOk(next) && LinkedExcept(next, parent) && Linked(next, parent)
  {
    assert MatchOk(t, Left(parent)) && MatchOk(t, Right(parent));
    ParentIsOk(t, parent, next);
    forall k | k in next.matches ensures MatchOk(next, k) {
      if k != parent { assert MatchOk(t, k); }
    }
    assert Left(parent) != parent && Right(parent) != parent;
    OtherLinksKept(t, parent, next);
  }

  lemma {:induction false} OtherLinksKept(t: Tree, parent: Key, next: Tree)
    requires parent.round > 1 && parent !in t.matches && parent in next.matches && LinkedExcept(t, parent)
    requires !next.matches[parent].applied && next == t.(matches := t.matches[parent := next.matches[parent]])
    ensures LinkedExcept(next, parent)
  {
    forall k: Key | InTree(next.rounds, k) && k.round > 1 && k != parent ensures Linked(next, k) {
      assert Linked(t, k);
      OtherLinkKept(t, parent, next.matches[parent], k);
    }
  }

  /**
   * Applying a result never fails in a well-shaped bracket, whatever order the
   * results arrive in, and keeps the shape.
   */
  lemma {:induction false} ApplyKeepsShape(t: Tree, key: Key)
    requires Shape(t)
    ensures Apply(t, key).Ok? && Shape(Apply(t, key).value)
  {
    if Applicable(t, key) {
      ApplicableMeansOpen(t, key);
      assert MatchOk(t, key);
      OutcomeIsRight(t, key);
      var o := OutcomeOf(t.matches[key]).value;
      var mid := WithResult(t, key, o);
      ResultKeepsLinks(t, key, o);
      if key.round == t.rounds {
        assert key == Key(t.rounds, 0);
        ShapeAfter(t, mid, ParentOf(key));
      } else {
        AdvanceKeepsShape(t, key, mid);
      }
    }
  }

  /** Once both sources are applied, `Advance` adds the parent with their winners. */
  lemma {:induction false} AdvanceAdds(t: Tree, key: Key)
    requires key.round < t.rounds && InTree(t.rounds, key) && ParentOf(key) !in t.matches
    requires var parent := ParentOf(key);
      && AppliedAt(t, Left(parent)) && AppliedAt(t, Right(parent))
      && MatchOk(t, Left(parent)) && MatchOk(t, Right(parent))
    ensures var parent := ParentOf(key);
            var one := WinnerOf(t.matches[Left(parent)]);
            var two := WinnerOf(t.matches[Right(parent)]);
            one < |t.members| && two < |t.members| &&
            Advance(t, key)
              == Ok(t.(matches := t.matches[parent := NewMatch(one, t.members[one], two, t.members[two])]))
  {
    OutcomeIsRight(t, Left(ParentOf(key)));
    OutcomeIsRight(t, Right(ParentOf(key)));
  }

  lemma {:induction false} ShapeAfter(t: Tree, next: Tree, parent: Key)
    requires Shape(t)
    requires next.rounds == t.rounds && next.members == t.members && |next.teams| == |t.teams| &&
      next.status in {InProgress, Completed}
    requires t.matches.Keys <= next.matches.Keys
    requires AllMatchesOk(next) && LinkedExcept(next, parent) &&
      (InTree(t.rounds, parent) && parent.round > 1 ==> Linked(next, parent))
    requires next.status == Completed <==> AppliedAt(next, Key(t.rounds, 0))
    ensures Shape(next)
  {
    forall k: Key | InTree(next.rounds, k) && k.round > 1 ensures Linked(next, k) {
      if k == parent { assert Linked(next, parent); }
    }
  }

  lemma {:induction false} AdvanceKeepsShape(t: Tree, key: Key, mid: Tree)
    requires Shape(t) && Applicable(t, key) && key.round < t.rounds && InTree(t.rounds, key)
    requires OutcomeOf(t.matches[key]).Ok?
    requires var o := OutcomeOf(t.matches[key]).value;
             o.winner < |t.teams| && o.loser < |t.teams| && mid == WithResult(t, key, o)
    ensures Advance(mid, key).Ok? && Shape(Advance(mid, key).value)
  {
    var o := OutcomeOf(t.matches[key]).value;
    var parent := ParentOf(key);
    ResultKeepsLinks(t, key, o);
    ParentInTree(t.rounds, key);
    ApplicableMeansOpen(t, key);
    NoParentYet(t, key);
    if AppliedAt(mid, Left(parent)) && AppliedAt(mid, Right(parent)) {
      assert MatchOk(mid, Left(parent)) && MatchOk(mid, Right(parent));
      AdvanceAdds(mid, key);
      AddingParent(mid, parent, Advance(mid, key).value);
    } else {
      assert Linked(mid, parent);
    }
    ShapeAfter(t, Advance(mid, key).value, parent);
  }

  // ---- progress and termination ----------------------------------------------

  ghost function AppliedKeys(t: Tree): set<Key> {
    set key | key in t.matches && t.matches[key].applied
  }

  /** Positions of rounds 1..r of a tree with `rounds` rounds. */
  ghost function Positions(rounds: nat, r: nat): set<Key>
    requires r <= rounds
  {
    if r == 0 then {} else Positions(rounds, r - 1) + RoundPositions(r, Pow2(rounds - r))
  }

  ghost function RoundPositions(r: nat, n: nat): set<Key> {
    set s: nat | s < n :: Key(r, s)
  }

  lemma {:induction false} RoundSize(r: nat, n: nat)
    ensures |RoundPositions(r, n)| == n
  {
    if n > 0 {
      RoundSize(r, n - 1);
      assert RoundPositions(r, n) == RoundPositions(r, n - 1) + {Key(r, n - 1)};
    }
  }

  lemma {:induction false} PositionsAre(rounds: nat, r: nat, key: Key)
    requires r <= rounds
    ensures key in Positions(rounds, r) <==> InTree(rounds, key) && key.round <= r
  {
    if r > 0 {
      PositionsAre(rounds, r - 1, key);
      assert key in RoundPositions(r, Pow2(rounds - r)) <==> key.round == r && key.slot < Pow2(rounds - r) by {
        if key.round == r { assert key == Key(r, key.slot); }
      }
    }
  }

  lemma {:induction false} PositionsCount(rounds: nat, r: nat)
    requires r <= rounds
    ensures |Positions(rounds, r)| == Pow2(rounds) - Pow2(rounds - r)
  {
    if r > 0 {
      PositionsCount(rounds, r - 1);
      RoundSize(r, Pow2(rounds - r));
      var earlier := Positions(rounds, r - 1);
      var last := RoundPositions(r, Pow2(rounds - r));
      forall key | key in earlier ensures key !in last { PositionsAre(rounds, r - 1, key); }
      assert earlier !! last;
      assert |earlier + last| == |earlier| + |last|;
    }
  }

  lemma {:induction false} AppliedInTree(t: Tree)
    requires Shape(t)
    ensures AppliedKeys(t) <= Positions(t.rounds, t.rounds)
  {
    forall key | key in AppliedKeys(t) ensures key in Positions(t.rounds, t.rounds) {
      assert MatchOk(t, key);
      PositionsAre(t.rounds, t.rounds, key);
    }
  }

  lemma {:induction false} SubsetOfSameSize<T>(a: set<T>, b: set<T>)
    requires a <= b && |a| == |b|
    ensures a == b
  {
    if a != b {
      var x :| x in b && x !in a;
      assert |b| == |b - {x}| + 1 && a <= b - {x};
      SubsetSize(a, b - {x});
    }
  }

  /** The bracket is complete exactly when teams-1 results have been applied. */
  lemma {:induction false} CompleteExactlyAtTeamsMinusOne(t: Tree)
    requires Shape(t)
    ensures t.status == Completed <==> |AppliedKeys(t)| == |t.teams| - 1
    ensures |AppliedKeys(t)| <= |t.teams| - 1
  {
    var all := Positions(t.rounds, t.rounds);
    PositionsCount(t.rounds, t.rounds);
    AppliedInTree(t);
    SubsetSize(AppliedKeys(t), all);
    if t.status == Completed {
      forall key | key in all ensures key in AppliedKeys(t) {
        PositionsAre(t.rounds, t.rounds, key);
        AllAppliedBelow(t, key);
      }
      assert AppliedKeys(t) == all;
    }
    if |AppliedKeys(t)| == |t.teams| - 1 {
      SubsetOfSameSize(AppliedKeys(t), all);
      PositionsAre(t.rounds, t.rounds, Key(t.rounds, 0));
    }
  }

  lemma {:induction false} ReachedIfNothingOpen(t: Tree, key: Key)
    requires Shape(t) && InTree(t.rounds, key)
    requires forall k :: k in t.matches ==> t.matches[k].applied
    ensures AppliedAt(t, key)
    decreases key.round
  {
    if key.round > 1 {
      assert Pow2(t.rounds - key.round + 1) == 2 * Pow2(t.rounds - key.round);
      ReachedIfNothingOpen(t, Left(key));
      ReachedIfNothingOpen(t, Right(key));
      assert Linked(t, key);
    }
  }

  /** No stuck state: an unfinished bracket always has a match whose result is still to come. */
  lemma {:induction false} NeverStuck(t: Tree)
    requires Shape(t)
    ensures t.status == InProgress <==> exists key :: key in t.matches && !t.matches[key].applied
  {
    if t.status == InProgress && forall key :: key in t.matches ==> t.matches[key].applied {
      ReachedIfNothingOpen(t, Key(t.rounds, 0));
    }
    if t.status == Completed {
      forall key | key in t.matches ensures t.matches[key].applied {
        assert MatchOk(t, key);
        AllAppliedBelow(t, key);
      }
    }
  }

  /** A result counts once: applying it again changes nothing, and it adds exactly one applied match. */
  lemma {:induction false} ApplyCountsOnce(t: Tree, key: Key)
    requires Shape(t)
    ensures Apply(t, key).Ok?
    ensures var next := Apply(t, key).value;
      && AppliedKeys(next) == AppliedKeys(t) + (if Applicable(t, key) then {key} else {})
      && Apply(next, key) == Ok(next)
      && next.members == t.members && next.rounds == t.rounds
  {
    ApplyKeepsShape(t, key);
    if Applicable(t, key) {
      ApplicableMeansOpen(t, key);
      OutcomeIsRight(t, key);
      var mid := WithResult(t, key, OutcomeOf(t.matches[key]).value);
      ResultKeepsLinks(t, key, OutcomeOf(t.matches[key]).value);
      assert AppliedKeys(mid) == AppliedKeys(t) + {key};
      if key.round < t.rounds {
        var next := Advance(mid, key).value;
        ParentInTree(t.rounds, key);
        NoParentYet(t, key);
        assert ParentOf(key) !in AppliedKeys(mid);
        assert AppliedKeys(next) == AppliedKeys(mid);
      }
    }
  }

  // ---- who plays where ---------------------------------------------------------

  ghost predicate PlaysIn(t: Tree, team: nat, key: Key) {
    key in t.matches && (One(t.matches[key]) == team || Two(t.matches[key]) == team)
  }

  lemma {:induction false} PlaysInOwnSlot(t: Tree, team: nat, key: Key)
    requires Shape(t) && PlaysIn(t, team, key)
    ensures InTree(t.rounds, key) && key.slot == Ancestor(team, key.round)
  {
    assert MatchOk(t, key);
  }

  /** A team in a later round won every earlier match of its path, and each of those results was applied. */
  lemma {:induction false} WonItsWay(t: Tree, team: nat, key: Key, r: nat)
    requires Shape(t) && PlaysIn(t, team, key) && 1 <= r < key.round
    ensures AppliedAt(t, Key(r, Ancestor(team, r))) && WinnerOf(t.matches[Key(r, Ancestor(team, r))]) == team
    decreases key.round
  {
    PlaysInOwnSlot(t, team, key);
    assert Linked(t, key);
    var source := if One(t.matches[key]) == team then Left(key) else Right(key);
    assert MatchOk(t, source);
    assert PlaysIn(t, team, source);
    PlaysInOwnSlot(t, team, source);
    if r < source.round {
      WonItsWay(t, team, source, r);
    }
  }

  /** No team ever waits in two matches at once. */
  lemma {:induction false} OneOpenMatchPerTeam(t: Tree, team: nat, a: Key, b: Key)
    requires Shape(t) && PlaysIn(t, team, a) && PlaysIn(t, team, b)
    requires !t.matches[a].applied && !t.matches[b].applied
    ensures a == b
  {
    PlaysInOwnSlot(t, team, a);
    PlaysInOwnSlot(t, team, b);
    if a.round < b.round {
      WonItsWay(t, team, b, a.round);
    } else if b.round < a.round {
      WonItsWay(t, team, a, b.round);
    }
  }

  // ---- placements ----------------------------------------------------------------

  ghost predicate LostIn(t: Tree, team: nat, r: nat) {
    var key := Key(r, Ancestor(team, r));
    1 <= r <= t.rounds && AppliedAt(t, key) && LoserOf(t.matches[key]) == team
  }

  ghost predicate WonFinal(t: Tree, team: nat) {
    AppliedAt(t, Key(t.rounds, 0)) && WinnerOf(t.matches[Key(t.rounds, 0)]) == team
  }

  /** What a team's status says about its placement; a disqualified team may have any. */
  predicate StatusFits(row: Team) {
    match row.status
    case Active => row.placement == None
    case Champion => row.placement == Some(1)
    case RunnerUp => row.placement == Some(2)
    case Eliminated => row.placement.Some? && row.placement.value > 2
    case TeamDisqualified => true
  }

  /** The team's placement says exactly which round it lost in, if any. */
  ghost predicate RankedAt(t: Tree, team: nat)
    requires team < |t.teams|
  {
    var row := t.teams[team];
    && (forall r: nat {:trigger LostIn(t, team, r)} ::
          LostIn(t, team, r) ==> row.placement == Some(Pow2(t.rounds - r) + 1) && row.eliminatedRound == Some(r))
    && (WonFinal(t, team) ==> row.placement == Some(1))
    && (row.placement.Some? ==> WonFinal(t, team) || exists r: nat :: LostIn(t, team, r))
  }

  ghost predicate Ranked(t: Tree) {
    forall team: nat {:trigger RankedAt(t, team)} :: team < |t.teams| ==> RankedAt(t, team) && StatusFits(t.teams[team])
  }

  lemma {:induction false} NotYetOut(t: Tree, team: nat, key: Key, r: nat)
    requires Shape(t) && PlaysIn(t, team, key) && !t.matches[key].applied
    ensures !LostIn(t, team, r)
  {
    var lost := Key(r, Ancestor(team, r));
    if LostIn(t, team, r) {
      assert MatchOk(t, lost);
      PlaysInOwnSlot(t, team, key);
      if r < key.round {
        WonItsWay(t, team, key, r);
        OutcomeIsRight(t, lost);
      } else if r > key.round {
        assert PlaysIn(t, team, lost);
        WonItsWay(t, team, lost, key.round);
      }
    }
  }

  /** The new losses and wins after a result, and the rows they touch. */
  lemma {:induction false} ResultChangesRanks(t: Tree, key: Key, team: nat, r: nat)
    requires Shape(t) && Applicable(t, key)
    ensures Apply(t, key).Ok?
    ensures var next := Apply(t, key).value;
      && (LostIn(next, team, r) <==> LostIn(t, team, r) || (r == key.round && team == LoserOf(t.matches[key])))
      && (WonFinal(next, team) <==> key.round == t.rounds && team == WinnerOf(t.matches[key]))
  {
    ApplyKeepsShape(t, key);
    ApplyCountsOnce(t, key);
    ApplicableMeansOpen(t, key);
    OutcomeIsRight(t, key);
    var next := Apply(t, key).value;
    var at := Key(r, Ancestor(team, r));
    assert PlaysIn(t, LoserOf(t.matches[key]), key);
    PlaysInOwnSlot(t, LoserOf(t.matches[key]), key);
    assert AppliedAt(next, at) <==> at in AppliedKeys(next);
    assert AppliedAt(next, Key(t.rounds, 0)) <==> Key(t.rounds, 0) in AppliedKeys(next);
    assert AppliedAt(t, Key(t.rounds, 0)) <==> Key(t.rounds, 0) in AppliedKeys(t);
    SameSeating(t, key);
  }

  /** Apart from the `applied` mark, a result leaves the existing match rows alone. */
  lemma {:induction false} SameSeating(t: Tree, key: Key)
    requires Shape(t) && Applicable(t, key)
    ensures Apply(t, key).Ok?
    ensures forall k :: k in t.matches ==>
      k in Apply(t, key).value.matches &&
        Apply(t, key).value.matches[k] == t.matches[k].(applied := t.matches[k].applied || k == key)
  {
    ApplyKeepsShape(t, key);
    ApplicableMeansOpen(t, key);
    OutcomeIsRight(t, key);
    assert MatchOk(t, key);
    ResultKeepsLinks(t, key, OutcomeOf(t.matches[key]).value);
    if key.round < t.rounds {
      ParentInTree(t.rounds, key);
      NoParentYet(t, key);
    }
  }

  lemma {:induction false} ResultRows(t: Tree, key: Key, team: nat)
    requires Shape(t) && Applicable(t, key) && team < |t.teams|
    ensures Apply(t, key).Ok? && |Apply(t, key).value.teams| == |t.teams|
    ensures var m := t.matches[key]; var row := Apply(t, key).value.teams[team];
      && (team == LoserOf(m) ==>
         row.placement == Some(Pow2(t.rounds - key.round) + 1) && row.eliminatedRound == Some(key.round))
      && (team == WinnerOf(m) && key.round == t.rounds ==>
            row == t.teams[team].(status := Champion, placement := Some(1)))
      && (team != LoserOf(m) && !(team == WinnerOf(m) && key.round == t.rounds) ==> row == t.teams[team])
  {
    ApplyKeepsShape(t, key);
    ApplicableMeansOpen(t, key);
    OutcomeIsRight(t, key);
  }

  lemma {:induction false} ResultRowFits(t: Tree, key: Key, team: nat)
    requires Shape(t) && Applicable(t, key) && team < |t.teams| && StatusFits(t.teams[team])
    ensures Apply(t, key).Ok? && |Apply(t, key).value.teams| == |t.teams| && StatusFits(Apply(t, key).value.teams[team])
  {
    ApplyKeepsShape(t, key);
    ApplicableMeansOpen(t, key);
    OutcomeIsRight(t, key);
    if key.round < t.rounds { Pow2Grows(0, t.rounds - key.round); }
  }

  /** A team still in: its new row matches its new result. */
  lemma {:induction false} RankMoves(t: Tree, next: Tree, round: nat, team: nat, lost: bool, won: bool)
    requires team < |t.teams| && team < |next.teams| && next.rounds == t.rounds && 1 <= round <= t.rounds
    requires RankedAt(t, team) && !(lost && won)
    requires lost || won ==> forall r: nat {:trigger LostIn(t, team, r)} :: !LostIn(t, team, r)
    requires forall r: nat {:trigger LostIn(next, team, r)} {:trigger LostIn(t, team, r)} ::
      LostIn(next, team, r) <==> LostIn(t, team, r) || (r == round && lost)
    requires !WonFinal(t, team) && (WonFinal(next, team) <==> won)
    requires lost ==>
      next.teams[team].placement == Some(Pow2(t.rounds - round) + 1) && next.teams[team].eliminatedRound == Some(round)
    requires won ==> next.teams[team].placement == Some(1)
    requires !lost && !won ==> next.teams[team] == t.teams[team]
    ensures RankedAt(next, team)
  {
    if lost { assert LostIn(next, team, round); }
  }

  lemma {:induction false} ApplyKeepsRank(t: Tree, key: Key, team: nat)
    requires Shape(t) && Applicable(t, key) && team < |t.teams| && RankedAt(t, team)
    ensures Apply(t, key).Ok? && |Apply(t, key).value.teams| == |t.teams|
    ensures RankedAt(Apply(t, key).value, team)
  {
    ResultRows(t, key, team);
    ApplicableMeansOpen(t, key);
    OutcomeIsRight(t, key);
    var next := Apply(t, key).value;
    var lost := team == LoserOf(t.matches[key]);
    var won := team == WinnerOf(t.matches[key]) && key.round == t.rounds;
    forall r: nat ensures LostIn(next, team, r) <==> LostIn(t, team, r) || (r == key.round && lost) {
      ResultChangesRanks(t, key, team, r);
    }
    ResultChangesRanks(t, key, team, key.round);
    if lost || won {
      forall r: nat ensures !LostIn(t, team, r) { NotYetOut(t, team, key, r); }
    }
    RankMoves(t, next, key.round, team, lost, won);
  }

  lemma {:induction false} ApplyKeepsRanks(t: Tree, key: Key)
    requires Shape(t) && Ranked(t)
    ensures Apply(t, key).Ok? && Ranked(Apply(t, key).value)
  {
    ApplyKeepsShape(t, key);
    if Applicable(t, key) {
      forall team: nat | team < |Apply(t, key).value.teams|
        ensures RankedAt(Apply(t, key).value, team) && StatusFits(Apply(t, key).value.teams[team])
      {
        ResultRows(t, key, 0);
        assert RankedAt(t, team);
        ResultRowFits(t, key, team);
        ApplyKeepsRank(t, key, team);
      }
    }
  }

  /** Finishing a match or marking a team disqualified touches no applied match and no placement. */
  lemma {:induction false} OtherStepsKeepRanks(t: Tree, next: Tree)
    requires Shape(t) && Ranked(t)
    requires next.rounds == t.rounds && |next.teams| == |t.teams| && next.matches.Keys == t.matches.Keys
    requires forall k :: k in t.matches ==>
      next.matches[k].applied == t.matches[k].applied && (t.matches[k].applied ==> next.matches[k] == t.matches[k])
    requires forall i :: 0 <= i < |t.teams| ==>
      next.teams[i].placement == t.teams[i].placement && next.teams[i].eliminatedRound == t.teams[i].eliminatedRound &&
      (StatusFits(t.teams[i]) ==> StatusFits(next.teams[i]))
    ensures Ranked(next)
  {
    forall team: nat | team < |next.teams| ensures RankedAt(next, team) && StatusFits(next.teams[team]) {
      assert RankedAt(t, team);
      forall r: nat ensures LostIn(next, team, r) <==> LostIn(t, team, r) {}
    }
  }

  // ---- every run -------------------------------------------------------------------

  datatype Event =
    | MatchEnds(key: Key, side: nat, forfeited: bool)
    | ResultArrives(key: Key)
    | TeamDisqualifiedBy(team: nat)

  function Step(t: Tree, e: Event): Tree {
    match e
    case MatchEnds(key, side, forfeited) => Finish(t, key, side, forfeited)
    case ResultArrives(key) => (match Apply(t, key) case Ok(next) => next case Err(_) => t)
    case TeamDisqualifiedBy(team) => MarkDisqualified(t, team)
  }

  function Run(t: Tree, events: seq<Event>): Tree {
    if events == [] then t else Step(Run(t, events[..|events| - 1]), events[|events| - 1])
  }

  /** How many events of the run actually applied a result. */
  function ResultsApplied(t: Tree, events: seq<Event>): nat {
    if events == [] then 0
    else
      var init := events[..|events| - 1];
      var last := events[|events| - 1];
      ResultsApplied(t, init) + (if last.ResultArrives? && Applicable(Run(t, init), last.key) then 1 else 0)
  }

  lemma {:induction false} StepKeepsAll(t: Tree, e: Event)
    requires Shape(t) && Ranked(t)
    ensures Shape(Step(t, e)) && Ranked(Step(t, e))
    ensures Step(t, e).members == t.members && Step(t, e).rounds == t.rounds
    ensures |AppliedKeys(Step(t, e))| == |AppliedKeys(t)| + (if e.ResultArrives? && Applicable(t, e.key) then 1 else 0)
  {
    match e {
      case MatchEnds(key, side, forfeited) => EndKeepsAll(t, key, side, forfeited);
      case ResultArrives(key) =>
        ApplyKeepsShape(t, key);
        ApplyKeepsRanks(t, key);
        ApplyCountsOnce(t, key);
      case TeamDisqualifiedBy(team) =>
        DisqualifyKeepsShape(t, team);
        OtherStepsKeepRanks(t, Step(t, e));
        assert AppliedKeys(Step(t, e)) == AppliedKeys(t);
    }
  }

  lemma {:induction false} EndKeepsAll(t: Tree, key: Key, side: nat, forfeited: bool)
    requires Shape(t) && Ranked(t)
    ensures var next := Finish(t, key, side, forfeited);
      Shape(next) && Ranked(next) && next.members == t.members && next.rounds == t.rounds &&
        AppliedKeys(next) == AppliedKeys(t)
  {
    var next := Finish(t, key, side, forfeited);
    FinishKeepsShape(t, key, side, forfeited);
    forall k | k in t.matches && t.matches[k].applied ensures next.matches[k] == t.matches[k] { assert MatchOk(t, k); }
    OtherStepsKeepRanks(t, next);
  }

  /** What holds after `applied` results from the drawn bracket `start`. */
  ghost predicate Reached(start: Tree, t: Tree, applied: nat) {
    && Shape(t) && Ranked(t)
    && t.members == start.members && t.rounds == start.rounds
    && |AppliedKeys(t)| == applied
  }

  lemma {:induction false} StepReaches(start: Tree, t: Tree, applied: nat, e: Event)
    requires Reached(start, t, applied)
    ensures Reached(start, Step(t, e), applied + (if e.ResultArrives? && Applicable(t, e.key) then 1 else 0))
  {
    StepKeepsAll(t, e);
  }

  lemma {:induction false} BeginReaches(rounds: nat, members: seq<Pair>)
    requires rounds >= 1 && |members| == Pow2(rounds)
    ensures Reached(Begin(rounds, members), Begin(rounds, members), 0)
  {
    var start := Begin(rounds, members);
    BeginHasShape(rounds, members);
    forall key ensures !AppliedAt(start, key) { FirstRoundMatch(rounds, members, key); }
    BeginIsRanked(start);
    assert AppliedKeys(start) == {};
  }

  lemma {:induction false} BeginIsRanked(t: Tree)
    requires t.teams == NewTeams(|t.teams|) && forall key :: !AppliedAt(t, key)
    ensures Ranked(t)
  {
    forall team: nat | team < |t.teams| ensures RankedAt(t, team) && StatusFits(t.teams[team]) {
      assert t.teams[team] == Team(Active, None, None);
    }
  }

  lemma {:induction false} RunReaches(rounds: nat, members: seq<Pair>, events: seq<Event>)
    requires rounds >= 1 && |members| == Pow2(rounds)
    ensures var start := Begin(rounds, members); Reached(start, Run(start, events), ResultsApplied(start, events))
  {
    if events == [] {
      BeginReaches(rounds, members);
    } else {
      var start, init := Begin(rounds, members), events[..|events| - 1];
      RunReaches(rounds, members, init);
      StepReaches(start, Run(start, init), ResultsApplied(start, init), events[|events| - 1]);
    }
  }

  /**
   * Every run from a drawn bracket, whatever order matches end, results arrive,
   * repeat or are forfeited: the tree shape and the placements hold throughout,
   * and the bracket completes after exactly teams-1 applied results.
   */
  lemma {:induction false} EveryRun(rounds: nat, members: seq<Pair>, events: seq<Event>)
    requires rounds >= 1 && |members| == Pow2(rounds)
    ensures var start := Begin(rounds, members); var t := Run(start, events);
      && Shape(t) && Ranked(t)
      && t.members == members && t.rounds == rounds
      && |AppliedKeys(t)| == ResultsApplied(start, events) <= |members| - 1
      && (t.status == Completed <==> ResultsApplied(start, events) == |members| - 1)
      && (t.status == InProgress <==> exists key :: key in t.matches && !t.matches[key].applied)
  {
    RunReaches(rounds, members, events);
    var t := Run(Begin(rounds, members), events);
    CompleteExactlyAtTeamsMinusOne(t);
    NeverStuck(t);
  }

  // ---- the final standings -----------------------------------------------------------

  ghost function PlacedAt(t: Tree, place: nat): set<nat> {
    set team: nat | team < |t.teams| && t.teams[team].placement == Some(place)
  }

  ghost predicate Full(t: Tree, r: nat, n: nat) {
    forall s: nat {:trigger Key(r, s)} :: s < n ==> Key(r, s) in t.matches
  }

  ghost function Losers(t: Tree, r: nat, n: nat): set<nat>
    requires Full(t, r, n)
  {
    set s: nat | s < n :: LoserOf(t.matches[Key(r, s)])
  }

  lemma {:induction false} LosersAreDistinct(t: Tree, r: nat, n: nat)
    requires Shape(t) && Full(t, r, n)
    ensures |Losers(t, r, n)| == n
  {
    if n > 0 {
      LosersAreDistinct(t, r, n - 1);
      var last := LoserOf(t.matches[Key(r, n - 1)]);
      forall s: nat | s < n ensures Ancestor(LoserOf(t.matches[Key(r, s)]), r) == s {
        assert PlaysIn(t, LoserOf(t.matches[Key(r, s)]), Key(r, s));
        PlaysInOwnSlot(t, LoserOf(t.matches[Key(r, s)]), Key(r, s));
      }
      assert Losers(t, r, n) == Losers(t, r, n - 1) + {last};
    }
  }

  lemma {:induction false} Pow2Grows(a: nat, b: nat)
    requires a < b
    ensures Pow2(a) < Pow2(b)
    decreases b
  {
    if a < b - 1 { Pow2Grows(a, b - 1); }
  }

  lemma {:induction false} OneChampion(t: Tree)
    requires Shape(t) && Ranked(t) && t.status == Completed
    ensures PlacedAt(t, 1) == {WinnerOf(t.matches[Key(t.rounds, 0)])}
  {
    var final := Key(t.rounds, 0);
    assert MatchOk(t, final);
    var champion := WinnerOf(t.matches[final]);
    assert WonFinal(t, champion);
    forall team: nat | team < |t.teams| ensures team in PlacedAt(t, 1) <==> team == champion {
      assert RankedAt(t, team);
    }
  }

  lemma {:induction false} Pow2Injective(a: nat, b: nat)
    requires Pow2(a) == Pow2(b)
    ensures a == b
  {
    if a < b { Pow2Grows(a, b); }
    if b < a { Pow2Grows(b, a); }
  }

  lemma {:induction false} LostAtPlace(t: Tree, team: nat, k: nat)
    requires Shape(t) && Ranked(t) && t.status == Completed && k < t.rounds && team < |t.teams|
    ensures team in PlacedAt(t, Pow2(k) + 1) <==> LostIn(t, team, t.rounds - k)
  {
    assert RankedAt(t, team);
    OutAtPlace(t, team, k);
  }

  lemma {:induction false} OutAtPlace(t: Tree, team: nat, k: nat)
    requires k < t.rounds && team < |t.teams| && RankedAt(t, team)
    ensures t.teams[team].placement == Some(Pow2(k) + 1) <==> LostIn(t, team, t.rounds - k)
  {
    if t.teams[team].placement == Some(Pow2(k) + 1) {
      var r: nat :| LostIn(t, team, r);
      Pow2Injective(t.rounds - r, k);
    }
  }

  /** Once complete: one champion, and exactly 2^k teams placed 2^k+1 for every k below the number of rounds. */
  lemma {:induction false} FinalStandings(t: Tree, k: nat)
    requires Shape(t) && Ranked(t) && t.status == Completed && k < t.rounds
    ensures |PlacedAt(t, 1)| == 1
    ensures |PlacedAt(t, Pow2(k) + 1)| == Pow2(k)
  {
    OneChampion(t);
    var r := t.rounds - k;
    forall s: nat | s < Pow2(k) ensures Key(r, s) in t.matches { AllAppliedBelow(t, Key(r, s)); }
    LosersAreDistinct(t, r, Pow2(k));
    forall team: nat ensures team in PlacedAt(t, Pow2(k) + 1) <==> team in Losers(t, r, Pow2(k)) {
      LosersAreThoseOut(t, team, r, Pow2(k));
      if team < |t.teams| { LostAtPlace(t, team, k); }
    }
    assert PlacedAt(t, Pow2(k) + 1) == Losers(t, r, Pow2(k));
  }

  lemma {:induction false} LosersAreThoseOut(t: Tree, team: nat, r: nat, n: nat)
    requires Shape(t) && t.status == Completed && Full(t, r, n) && 1 <= r <= t.rounds && n == Pow2(t.rounds - r)
    ensures team in Losers(t, r, n) <==> team < |t.teams| && LostIn(t, team, r)
  {
    if team in Losers(t, r, n) {
      var s: nat :| s < n && team == LoserOf(t.matches[Key(r, s)]);
      assert MatchOk(t, Key(r, s));
      assert PlaysIn(t, team, Key(r, s));
      PlaysInOwnSlot(t, team, Key(r, s));
      AllAppliedBelow(t, Key(r, s));
    }
    if LostIn(t, team, r) {
      assert MatchOk(t, Key(r, Ancestor(team, r)));
      assert Ancestor(team, r) < n;
    }
  }
}
