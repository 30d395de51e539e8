/** Who can still win. */
module Knockout {
  // Tournaments played to their end, the teams that can still win the final, and
  // what a disqualification and a correction make of them.
  import opened Common
  import opened Bracket
  import opened Desk
  import opened Draw
  import opened Sorting
  import opened Standings
  import S = Settlement

  // ---- decided matches ---------------------------------------------------------------

  ghost predicate LostAt(t: Tree, team: nat, key: Key) {
    PlaysIn(t, team, key) && t.matches[key].winner.Some? && WinnerOf(t.matches[key]) != team
  }

  /** Some match of the team has been decided against it, applied or not. */
  ghost predicate HasLost(t: Tree, team: nat) {
    exists key :: LostAt(t, team, key)
  }

  /** `u` has every match of `t` with the same players, and with the same winner once there is one. */
  ghost predicate ResultsStand(t: Tree, u: Tree) {
    forall key :: key in t.matches ==>
      && key in u.matches && u.matches[key].seats == t.matches[key].seats
      && (t.matches[key].winner.Some? ==> u.matches[key].winner == t.matches[key].winner)
  }

  lemma {:induction false} LossesStand(t: Tree, u: Tree, team: nat)
    requires ResultsStand(t, u) && HasLost(t, team)
    ensures HasLost(u, team)
  {
    var key :| LostAt(t, team, key);
    assert LostAt(u, team, key);
  }

  /** Every match of `u` that is decided was already decided in `t`, the same way. */
  ghost predicate NothingNewDecided(t: Tree, u: Tree) {
    forall key :: key in u.matches && u.matches[key].winner.Some? ==>
      key in t.matches && t.matches[key].seats == u.matches[key].seats && t.matches[key].winner == u.matches[key].winner
  }

  /** Applying a result decides no match: it takes note of one and adds at most an open one. */
  lemma {:induction false} ApplyDecidesNothing(t: Tree, key: Key)
    requires Shape(t)
    ensures Apply(t, key).Ok? && ResultsStand(t, Apply(t, key).value) && NothingNewDecided(t, Apply(t, key).value)
  {
    ApplyKeepsShape(t, key);
    if Applicable(t, key) {
      ApplicableMeansOpen(t, key);
      OutcomeIsRight(t, key);
      assert MatchOk(t, key);
      SameSeating(t, key);
      if key.round < t.rounds { NoParentYet(t, key); }
    }
  }

  lemma {:induction false} SameLosses(t: Tree, u: Tree, team: nat)
    requires ResultsStand(t, u) && NothingNewDecided(t, u)
    ensures HasLost(u, team) <==> HasLost(t, team)
  {
    if HasLost(u, team) {
      var key :| LostAt(u, team, key);
      assert LostAt(t, team, key);
    }
    if HasLost(t, team) { LossesStand(t, u, team); }
  }

  lemma {:induction false} ResultKeepsLosses(d: Desk, key: Key, disputed: set<UserId>, team: nat)
    requires Sane(d)
    ensures HasLost(Committed(d, ApplyMatch(d, key, disputed)).tree, team) <==> HasLost(d.tree, team)
  {
    ApplyDecidesNothing(d.tree, key);
    SameLosses(d.tree, Apply(d.tree, key).value, team);
  }

  lemma {:induction false} EndingStands(t: Tree, key: Key, side: nat, forfeited: bool)
    requires Shape(t)
    ensures ResultsStand(t, Finish(t, key, side, forfeited))
  {
    if key in t.matches { assert MatchOk(t, key); }
  }

  lemma {:induction false} ActKeepsLosses(d: Desk, a: Action, team: nat)
    requires Sane(d) && HasLost(d.tree, team)
    ensures HasLost(Act(d, a).tree, team)
  {
    match a {
      case EndMatch(key, side, forfeited) =>
        EndingStands(d.tree, key, side, forfeited);
        LossesStand(d.tree, Act(d, a).tree, team);
      case ApplyResult(key, disputed) => ResultKeepsLosses(d, key, disputed, team);
      case DisqualifyPlayer(user, disputed) => DisqualifyKeepsLosses(d, user, disputed, team);
      case _ => LossesStand(d.tree, Act(d, a).tree, team);
    }
  }

  lemma {:induction false} DisqualifyKeepsLosses(d: Desk, user: UserId, disputed: set<UserId>, team: nat)
    requires Sane(d) && HasLost(d.tree, team)
    ensures HasLost(Committed(d, DisqualifyDesk(d, user, disputed)).tree, team)
  {
    if user in d.registrations {
      DisqualifySane(d, user, disputed);
      ExpelSane(d, user);
      LossesStand(d.tree, Expel(d, user).tree, team);
      if key :| key in ActiveMatchesOf(d.tree, user) {
        var e := Expel(d, user);
        ForfeitedSane(d, user, key);
        EndingStands(e.tree, key, ForfeitWinner(d.tree.matches[key].seats, user), true);
        LossesStand(e.tree, AfterForfeit(d, user, key).tree, team);
        ResultKeepsLosses(AfterForfeit(d, user, key), key, disputed, team);
      }
    }
  }

  lemma {:induction false} RunKeepsLosses(d: Desk, actions: seq<Action>, e: Desk, team: nat)
    requires Sane(d) && HasLost(d.tree, team) && Reaches(d, actions, e)
    ensures Sane(e) && HasLost(e.tree, team)
    decreases |actions|
  {
    if actions != [] {
      ActSane(d, actions[0]);
      ActKeepsLosses(d, actions[0], team);
      RunKeepsLosses(Act(d, actions[0]), actions[1..], e, team);
    }
  }

  /** The winner of the final has lost nothing. */
  lemma {:induction false} WinnerIsUnbeaten(t: Tree, team: nat)
    requires Shape(t) && WonFinal(t, team)
    ensures !HasLost(t, team)
  {
    var final := Key(t.rounds, 0);
    assert MatchOk(t, final);
    if HasLost(t, team) {
      var key :| LostAt(t, team, key);
      PlaysInOwnSlot(t, team, key);
      if key.round < t.rounds { WonItsWay(t, team, final, key.round); }
    }
  }

  /** An unbeaten team of a finished bracket has played every round of its path. */
  lemma {:induction false} UnbeatenPlaysOn(t: Tree, team: nat, r: nat)
    requires Shape(t) && t.status == Completed && team < |t.teams| && !HasLost(t, team) && 1 <= r <= t.rounds
    ensures PlaysIn(t, team, Key(r, Ancestor(team, r)))
  {
    var key := Key(r, Ancestor(team, r));
    if r == 1 {
      assert Ancestor(team, 1) == Ancestor(team, 0) / 2 == team / 2;
      assert Pow2(t.rounds) == 2 * Pow2(t.rounds - 1);
      assert InTree(t.rounds, key);
      assert MatchOk(t, key);
      FirstTeams(t, key);
    } else {
      var below := Key(r - 1, Ancestor(team, r - 1));
      UnbeatenPlaysOn(t, team, r - 1);
      assert MatchOk(t, below) && !LostAt(t, team, below);
      AllAppliedBelow(t, below);
      ParentInTree(t.rounds, below);
      AllAppliedBelow(t, key);
      assert Linked(t, key);
    }
  }

  lemma {:induction false} FirstTeams(t: Tree, key: Key)
    requires key in t.matches && MatchOk(t, key) && key.round == 1
    ensures One(t.matches[key]) == 2 * key.slot && Two(t.matches[key]) == 2 * key.slot + 1
  {
    assert Ancestor(One(t.matches[key]), 0) == One(t.matches[key]) &&
      Ancestor(Two(t.matches[key]), 0) == Two(t.matches[key]);
  }

  lemma {:induction false} UnbeatenWins(t: Tree, team: nat)
    requires Shape(t) && t.status == Completed && team < |t.teams| && !HasLost(t, team)
    ensures WonFinal(t, team)
  {
    var final := Key(t.rounds, Ancestor(team, t.rounds));
    UnbeatenPlaysOn(t, team, t.rounds);
    assert MatchOk(t, final) && final == Key(t.rounds, 0) && !LostAt(t, team, final);
  }

  // ---- playing a tournament out ------------------------------------------------------------

  lemma {:induction false} OneAction(d: Desk, a: Action)
    requires |d.tree.members| == |d.tree.teams|
    ensures Reaches(d, [a], Act(d, a))
  {
    assert [a][1..] == [];
  }

  lemma {:induction false} RunsCompose(d: Desk, first: seq<Action>, mid: Desk, second: seq<Action>, e: Desk)
    requires Reaches(d, first, mid) && Reaches(mid, second, e)
    ensures Reaches(d, first + second, e)
    decreases |first|
  {
    if first == [] {
      assert first + second == second;
    } else {
      assert (first + second)[1..] == first[1..] + second;
      RunsCompose(Act(d, first[0]), first[1..], mid, second, e);
    }
  }

  predicate NoCorrection(actions: seq<Action>) {
    forall i :: 0 <= i < |actions| ==> !actions[i].CorrectResults?
  }

  ghost predicate SameField(d: Desk, e: Desk) {
    && e.tree.members == d.tree.members && e.tree.rounds == d.tree.rounds && |e.tree.teams| == |d.tree.teams|
    && e.registrations.Keys == d.registrations.Keys
    && (forall u :: u in d.registrations ==>
          (e.registrations[u].team == d.registrations[u].team &&
            e.registrations[u].disqualified == d.registrations[u].disqualified))
  }

  /** The side on which a team plays, the left one if it does not play here. */
  function SideFor(m: Match, team: nat): (side: nat)
    ensures side < 2
  {
    if Two(m) == team then 1 else 0
  }

  /** A match ends in favour of `team` if it plays, so it stays unbeaten if it was. */
  lemma {:induction false} EndingInFavour(d: Desk, key: Key, team: nat)
    requires Sane(d) && key in d.tree.matches && d.tree.matches[key].status == Playing
    ensures var e := Act(d, EndMatch(key, SideFor(d.tree.matches[key], team), false));
      && Sane(e) && SameField(d, e) && e.purse == d.purse && e.tree.status == d.tree.status
      && AppliedKeys(e.tree) == AppliedKeys(d.tree) && (!d.tree.matches[key].applied ==> Applicable(e.tree, key))
      && WinnerOf(e.tree.matches[key]) in {One(d.tree.matches[key]), Two(d.tree.matches[key])}
      && (!HasLost(d.tree, team) ==> !HasLost(e.tree, team))
  {
    var a := EndMatch(key, SideFor(d.tree.matches[key], team), false);
    ActSane(d, a);
    var e := Act(d, a);
    if HasLost(e.tree, team) {
      var k :| LostAt(e.tree, team, k);
      assert k != key && LostAt(d.tree, team, k);
    }
  }

  lemma {:induction false} AllCanBePaid(d: Desk, key: Key)
    requires Sane(d) && Applicable(d.tree, key)
    ensures FinalPayable(d, d.tree.matches[key], d.purse.book.balances.Keys)
  {
    assert MatchOk(d.tree, key);
    var m := d.tree.matches[key];
    forall t: nat | t < |d.tree.members|
      ensures AllPayable(d.purse, InIdOrder(d.tree.members[t]), d.purse.book.balances.Keys)
    {
      assert d.tree.members[t].first in d.registrations && d.tree.members[t].second in d.registrations;
    }
  }

  /** With every wallet's owner in dispute no result is refused. */
  lemma {:induction false} ApplyingGoesOn(d: Desk, key: Key, team: nat)
    requires Sane(d) && Applicable(d.tree, key)
    ensures var e := Act(d, ApplyResult(key, d.purse.book.balances.Keys));
      && Sane(e) && SameField(d, e) && AppliedKeys(e.tree) == AppliedKeys(d.tree) + {key}
      && (HasLost(e.tree, team) <==> HasLost(d.tree, team))
      && (e.tree.status == Completed ==> Crowned(e.tree))
  {
    var disputed := d.purse.book.balances.Keys;
    ApplicableMeansOpen(d.tree, key);
    AllCanBePaid(d, key);
    ApplyMatchSane(d, key, disputed);
    AppliedMatchIs(d, key, disputed);
    ApplyCountsOnce(d.tree, key);
    FinalCrowns(d.tree, key);
    ResultKeepsLosses(d, key, disputed, team);
  }

  /** What applying a result leaves of the desk besides placements and money. */
  lemma {:induction false} AppliedMatchIs(d: Desk, key: Key, disputed: set<UserId>)
    requires Sane(d) && ApplyMatch(d, key, disputed).Ok?
    ensures var e := ApplyMatch(d, key, disputed).value;
      e.tree == Apply(d.tree, key).value && SameField(d, e)
  {
    ApplyCountsOnce(d.tree, key);
    ApplyKeepsShape(d.tree, key);
  }

  ghost predicate Crowned(t: Tree) {
    var final := Key(t.rounds, 0);
    final in t.matches && WinnerOf(t.matches[final]) < |t.teams| &&
      t.teams[WinnerOf(t.matches[final])].status == Champion
  }

  /** The final makes its winner CHAMPION, whatever status the team had. */
  lemma {:induction false} FinalCrowns(t: Tree, key: Key)
    requires Shape(t) && Applicable(t, key)
    ensures Apply(t, key).Ok? && (Apply(t, key).value.status == Completed ==> Crowned(Apply(t, key).value))
  {
    ApplyKeepsShape(t, key);
    ApplicableMeansOpen(t, key);
    OutcomeIsRight(t, key);
    assert MatchOk(t, key);
  }

  lemma {:induction false} SameFieldTwice(d: Desk, mid: Desk, e: Desk)
    requires SameField(d, mid) && SameField(mid, e)
    ensures SameField(d, e)
  {
  }

  lemma {:induction false} EndIfOpen(d: Desk, key: Key, team: nat) returns (actions: seq<Action>, e: Desk)
    requires Sane(d) && key in d.tree.matches && !d.tree.matches[key].applied
    ensures Reaches(d, actions, e) && NoCorrection(actions) && Sane(e) && SameField(d, e)
    ensures Applicable(e.tree, key) && AppliedKeys(e.tree) == AppliedKeys(d.tree)
    ensures !HasLost(d.tree, team) ==> !HasLost(e.tree, team)
  {
    assert MatchOk(d.tree, key);
    actions, e := [], d;
    if d.tree.matches[key].status == Playing {
      var a := EndMatch(key, SideFor(d.tree.matches[key], team), false);
      EndingInFavour(d, key, team);
      OneAction(d, a);
      actions, e := [a], Act(d, a);
    }
  }

  /** Any match that is still unapplied can be ended, if need be, and applied. */
  lemma {:induction false} PlayOut(d: Desk, key: Key, team: nat) returns (actions: seq<Action>, e: Desk)
    requires Sane(d) && key in d.tree.matches && !d.tree.matches[key].applied
    ensures Reaches(d, actions, e) && NoCorrection(actions) && Sane(e) && SameField(d, e)
    ensures AppliedKeys(e.tree) == AppliedKeys(d.tree) + {key}
    ensures !HasLost(d.tree, team) ==> !HasLost(e.tree, team)
    ensures e.tree.status == Completed ==> Crowned(e.tree)
  {
    var first, ended := EndIfOpen(d, key, team);
    ApplyingGoesOn(ended, key, team);
    var a := ApplyResult(key, ended.purse.book.balances.Keys);
    OneAction(ended, a);
    e := Act(ended, a);
    SameFieldTwice(d, ended, e);
    RunsCompose(d, first, ended, [a], e);
    actions := first + [a];
  }

  /**
   * From every point of every tournament, whoever is overdrawn and whatever has been
   * corrected, some run of ends and results completes it; and `team` stays unbeaten on
   * that run if it is so far.
   */
  lemma {:induction false} CanBeCompleted(d: Desk, team: nat) returns (actions: seq<Action>, e: Desk)
    requires Sane(d)
    ensures Reaches(d, actions, e) && NoCorrection(actions) && Sane(e) && SameField(d, e) && e.tree.status == Completed
    ensures !HasLost(d.tree, team) ==> !HasLost(e.tree, team)
    ensures if d.tree.status == Completed then e == d else Crowned(e.tree)
    decreases |d.tree.teams| - |AppliedKeys(d.tree)|
  {
    NeverStuck(d.tree);
    CompleteExactlyAtTeamsMinusOne(d.tree);
    if d.tree.status == Completed {
      actions, e := [], d;
    } else {
      var key :| key in d.tree.matches && !d.tree.matches[key].applied;
      var first, next := PlayOut(d, key, team);
      OneMoreApplied(AppliedKeys(d.tree), key);
      CompleteExactlyAtTeamsMinusOne(next.tree);
      var rest;
      rest, e := CanBeCompleted(next, team);
      SameFieldTwice(d, next, e);
      RunsCompose(d, first, next, rest, e);
      actions := first + rest;
    }
  }

  lemma {:induction false} OneMoreApplied(keys: set<Key>, key: Key)
    requires key !in keys
    ensures |keys + {key}| == |keys| + 1
  {
  }

  // ---- who can still win ---------------------------------------------------------------------

  /** Some continuation has the final applied with this team as its winner. */
  ghost predicate CanStillWin(d: Desk, team: nat) {
    exists actions, e :: Reaches(d, actions, e) && WonFinal(e.tree, team)
  }

  /** A team can still win, whatever its status, if and only if it has lost no decided match. */
  lemma {:induction false} CanStillWinExactlyWhenUnbeaten(d: Desk, team: nat)
    requires Sane(d) && team < |d.tree.teams|
    ensures CanStillWin(d, team) <==> !HasLost(d.tree, team)
  {
    if CanStillWin(d, team) && HasLost(d.tree, team) {
      var actions, e :| Reaches(d, actions, e) && WonFinal(e.tree, team);
      RunKeepsLosses(d, actions, e, team);
      WinnerIsUnbeaten(e.tree, team);
    }
    if !HasLost(d.tree, team) {
      var actions, e := CanBeCompleted(d, team);
      UnbeatenWins(e.tree, team);
    }
  }

  lemma {:induction false} DisqualificationLoses(d: Desk, user: UserId, disputed: set<UserId>, team: nat)
    requires Sane(d) && user in d.registrations && d.registrations[user].team == Some(team)
    requires DisqualifyDesk(d, user, disputed).Ok?
    ensures HasLost(DisqualifyDesk(d, user, disputed).value.tree, team)
      <==> HasLost(d.tree, team) || ActiveMatchesOf(d.tree, user) != {}
  {
    DisqualifySane(d, user, disputed);
    if key :| key in ActiveMatchesOf(d.tree, user) {
      ForfeitHasLost(d, user, key, team);
      ForfeitedSane(d, user, key);
      ResultKeepsLosses(AfterForfeit(d, user, key), key, disputed, team);
    } else {
      SameLosses(d.tree, Expel(d, user).tree, team);
    }
  }

  /** The forfeited match is lost by the player's own team. */
  lemma {:induction false} ForfeitHasLost(d: Desk, user: UserId, key: Key, team: nat)
    requires Sane(d) && user in d.registrations && d.registrations[user].team == Some(team) &&
      key in ActiveMatchesOf(d.tree, user)
    ensures HasLost(AfterForfeit(d, user, key).tree, team)
  {
    var loser := ForfeitLoses(d, user, key);
    ForfeitedSane(d, user, key);
    var t := AfterForfeit(d, user, key).tree;
    assert MatchOk(t, key) && LostAt(t, team, key);
  }

  /**
   * A disqualification leaves the player's team able to win the final if and only if
   * the player is in no running match and the team has lost no decided one.
   */
  lemma {:induction false} DisqualifiedCanStillWinExactlyWhen(d: Desk, user: UserId, disputed: set<UserId>, team: nat)
    requires Sane(d) && user in d.registrations && d.registrations[user].team == Some(team)
    requires DisqualifyDesk(d, user, disputed).Ok?
    ensures CanStillWin(Act(d, DisqualifyPlayer(user, disputed)), team)
       <==> ActiveMatchesOf(d.tree, user) == {} && !HasLost(d.tree, team)
  {
    var a := DisqualifyPlayer(user, disputed);
    ActSane(d, a);
    ActKeepsField(d, a);
    DisqualificationLoses(d, user, disputed, team);
    CanStillWinExactlyWhenUnbeaten(Act(d, a), team);
  }

  // ---- a disqualified champion -------------------------------------------------------------------

  lemma {:induction false} FirstMatchIsOpen(t: Tree, slot: nat, team: nat)
    requires t.rounds >= 1 && |t.members| == Pow2(t.rounds) && t == Begin(t.rounds, t.members) && 2 * slot < |t.members|
    ensures Key(1, slot) in t.matches && !t.matches[Key(1, slot)].applied && AppliedKeys(t) == {} && !HasLost(t, team)
  {
    NothingApplied(t.rounds, t.members);
    assert Pow2(t.rounds) == 2 * Pow2(t.rounds - 1);
    FirstRoundMatch(t.rounds, t.members, Key(1, slot));
  }

  lemma {:induction false} LaterMeansTwoResults(t: Tree, key: Key)
    requires Shape(t) && key in t.matches && key.round > 1
    ensures Left(key) in AppliedKeys(t) && Right(key) in AppliedKeys(t)
  {
    assert MatchOk(t, key);
    assert Linked(t, key);
  }

  /** With one result applied, and that in round 1, nobody is in a later round. */
  lemma {:induction false} OnlyRoundOne(t: Tree, slot: nat, key: Key)
    requires Shape(t) && AppliedKeys(t) == {Key(1, slot)} && key in t.matches
    ensures key.round == 1
  {
    assert MatchOk(t, key);
    if key.round > 1 { LaterMeansTwoResults(t, key); }
  }

  /** After the only result so far, its winners wait. */
  lemma {:induction false} WaitsForNeighbour(d: Desk, user: UserId, team: nat)
    requires Sane(d) && user in d.registrations && d.registrations[user].team == Some(team)
    requires AppliedKeys(d.tree) == {Key(1, team / 2)}
    ensures ActiveMatchesOf(d.tree, user) == {}
  {
    forall key | key in d.tree.matches && Seated(d.tree.matches[key], user)
      ensures d.tree.matches[key].status != Playing
    {
      var s := SeatedPlays(d, user, key);
      assert d.tree.members[s].first in d.registrations && s == team;
      OnlyRoundOne(d.tree, team / 2, key);
      assert MatchOk(d.tree, key);
      FirstTeams(d.tree, key);
      assert key == Key(1, team / 2) && key in AppliedKeys(d.tree);
    }
  }

  lemma {:induction false} StartedTeam(d: Desk, players: seq<UserId>, user: UserId) returns (team: nat)
    requires Roster(d) && |d.tree.teams| == |d.tree.members| && Partitions(d.tree.members, players) && user in players
    ensures user in d.registrations && d.registrations[user].team == Some(team) && team < |d.tree.teams|
  {
    assert OnSome(d.tree.members, user);
    team :| team < |d.tree.members| && On(d.tree.members[team], user);
    TeamOfMember(d, team, user);
  }

  lemma {:induction false} TeamOfMember(d: Desk, team: nat, user: UserId)
    requires Roster(d) && team < |d.tree.members| && On(d.tree.members[team], user)
    ensures user in d.registrations && d.registrations[user].team == Some(team)
  {
    assert d.tree.members[team].first in d.registrations;
  }

  /** A team wins its match of round 1, the first result of the tournament. */
  lemma {:induction false} WinsFirstMatch(d: Desk, team: nat) returns (actions: seq<Action>, e: Desk)
    requires Sane(d) && d.tree.rounds >= 2 && AppliedKeys(d.tree) == {} && !HasLost(d.tree, team)
    requires Key(1, team / 2) in d.tree.matches
    ensures Reaches(d, actions, e) && Sane(e) && SameField(d, e) && e.tree.status == InProgress
    ensures AppliedKeys(e.tree) == {Key(1, team / 2)} && !HasLost(e.tree, team)
  {
    assert Key(1, team / 2) !in AppliedKeys(d.tree);
    actions, e := PlayOut(d, Key(1, team / 2), team);
    NotOver(e.tree, team / 2);
  }

  lemma {:induction false} NotOver(t: Tree, slot: nat)
    requires Shape(t) && t.rounds >= 2 && AppliedKeys(t) == {Key(1, slot)}
    ensures t.status == InProgress
  {
    assert Key(t.rounds, 0) !in AppliedKeys(t);
  }

  /** A team whose waiting player is disqualified wins the final all the same. */
  lemma {:induction false} WinsAllTheSame(d: Desk, user: UserId, team: nat) returns (after: seq<Action>, e: Desk)
    requires Sane(d) && user in d.registrations && d.registrations[user].team == Some(team) && team < |d.tree.teams|
    requires d.tree.status == InProgress && ActiveMatchesOf(d.tree, user) == {} && !HasLost(d.tree, team)
    ensures Reaches(Act(d, DisqualifyPlayer(user, {})), after, e)
    ensures user in e.registrations && e.registrations[user].team == Some(team) && e.registrations[user].disqualified
    ensures WonFinal(e.tree, team) && team < |e.tree.teams| && e.tree.teams[team].status == Champion
  {
    DisqualifySane(d, user, {});
    DisqualificationLoses(d, user, {}, team);
    var expelled := Expel(d, user);
    ExpelSane(d, user);
    after, e := CanBeCompleted(expelled, team);
    UnbeatenWins(e.tree, team);
  }

  /**
   * Every player of every drawn tournament of at least four teams can be disqualified
   * and still become champion: disqualified while waiting for the next match.
   */
  lemma {:induction false} DisqualifiedChampionHappens(d: Desk, hash: (nat, UserId) -> nat, seed: nat,
      players: seq<UserId>, user: UserId)
      returns (team: nat, before: seq<Action>, waiting: Desk, after: seq<Action>, e: Desk)
    requires Drawable(d, players) && |players| >= 8 && user in players
    ensures Reaches(Started(d, hash, seed, players), before, waiting) && |waiting.tree.members| == |waiting.tree.teams|
    ensures Reaches(Act(waiting, DisqualifyPlayer(user, {})), after, e)
    ensures user in e.registrations && e.registrations[user].team == Some(team) && e.registrations[user].disqualified
    ensures WonFinal(e.tree, team) && team < |e.tree.teams| && e.tree.teams[team].status == Champion
  {
    var start := Started(d, hash, seed, players);
    StartIsSane(d, hash, seed, players);
    EightPlayers(start.tree.rounds, |players|);
    team := StartedTeam(start, players, user);
    FirstMatchIsOpen(start.tree, team / 2, team);
    before, waiting := WinsFirstMatch(start, team);
    WaitsForNeighbour(waiting, user, team);
    after, e := WinsAllTheSame(waiting, user, team);
  }

  lemma {:induction false} EightPlayers(rounds: nat, n: nat)
    requires n >= 8 && n / 2 == Pow2(rounds)
    ensures rounds >= 2
  {
    AtLeastFour(rounds);
  }

  // ---- two first places are reached -----------------------------------------------------------

  function Names(p: Pair): seq<UserId> {
    [p.first, p.second]
  }

  lemma {:induction false} TeamsNamed(d: Desk, t: nat)
    requires Roster(d) && t < |d.tree.members|
    ensures var ids := Names(d.tree.members[t]);
      && (set u | u in ids) == {d.tree.members[t].first, d.tree.members[t].second}
      && AllDrawn(d.registrations, set u | u in ids)
      && TeamsOf(d.registrations, ids) == {t} && TheTeam(d.registrations, ids) == t
  {
    var ids := Names(d.tree.members[t]);
    assert ids[0] in ids && ids[1] in ids;
    assert d.tree.members[t].first in d.registrations;
  }

  lemma {:induction false} FourNames(p: Pair, q: Pair)
    requires Apart(p, q) && p.first != p.second && q.first != q.second
    ensures Submitted(Names(p), Names(q)) == {p.first, p.second} + {q.first, q.second}
    ensures |{p.first, p.second} + {q.first, q.second}| == 4
  {
    assert Names(p)[0] in Names(p) && Names(p)[1] in Names(p) && Names(q)[0] in Names(q) && Names(q)[1] in Names(q);
    assert {p.first, p.second} + {q.first, q.second} == {p.first, p.second, q.first, q.second};
  }

  /** The players of two teams pass validation as a correction. */
  lemma {:induction false} WholeTeamsAreAccepted(d: Desk, c: nat, r: nat)
    requires Roster(d) && c < r < |d.tree.members|
    ensures Accepts(d.registrations, Names(d.tree.members[c]), Names(d.tree.members[r]))
    ensures TheTeam(d.registrations, Names(d.tree.members[c])) == c &&
      TheTeam(d.registrations, Names(d.tree.members[r])) == r
  {
    TeamsNamed(d, c);
    TeamsNamed(d, r);
    assert Apart(d.tree.members[c], d.tree.members[r]);
    FourNames(d.tree.members[c], d.tree.members[r]);
  }

  /** A team with neither of two given numbers. */
  function OtherThan(a: nat, b: nat): nat {
    if 0 !in {a, b} then 0 else if 1 !in {a, b} then 1 else 2
  }

  lemma {:induction false} AtLeastFourTeams(rounds: nat)
    requires rounds >= 2
    ensures Pow2(rounds) >= 4
  {
    assert Pow2(1) == 2 * Pow2(0);
    if rounds > 2 { AtLeastFourTeams(rounds - 1); }
  }

  /** Two whole teams, all four players in dispute: nobody's wallet stands in the way of the correction. */
  lemma {:induction false} TeamsCanBeNamed(d: Desk, c: nat, r: nat, request: nat) returns (disputed: set<UserId>)
    requires Sane(d) && d.tree.status == Completed && c < r < |d.tree.members| && request !in d.corrections
    ensures NewCorrection(d, Names(d.tree.members[c]), Names(d.tree.members[r]), request, disputed)
  {
    disputed := Submitted(Names(d.tree.members[c]), Names(d.tree.members[r]));
    WholeTeamsAreAccepted(d, c, r);
    CorrectionGoesThrough(d, Names(d.tree.members[c]), Names(d.tree.members[r]), request, disputed);
  }

  lemma {:induction false} TwoLosers(t: Tree) returns (c: nat, r: nat)
    requires t.rounds >= 2 && |t.members| == Pow2(t.rounds) >= 4 && Key(t.rounds, 0) in t.matches
    ensures c < r < |t.members| && WinnerOf(t.matches[Key(t.rounds, 0)]) !in {c, r}
  {
    var winner := WinnerOf(t.matches[Key(t.rounds, 0)]);
    c := OtherThan(winner, winner);
    r := OtherThan(winner, c);
  }

  /** Correcting a finished tournament in favour of two teams that did not win it. */
  lemma {:induction false} CorrectTwoLosers(d: Desk) returns (correction: Action)
    requires Sane(d) && Ranked(d.tree) && d.tree.status == Completed && d.tree.rounds >= 2
    ensures |PlacedAt(Act(d, correction).tree, 1)| == 2
  {
    AtLeastFourTeams(d.tree.rounds);
    var c, r := TwoLosers(d.tree);
    var request := FreeNumber(d.corrections);
    assert request !in d.corrections;
    var disputed := TeamsCanBeNamed(d, c, r, request);
    WholeTeamsAreAccepted(d, c, r);
    OneFirstPlaceExactlyWhenWinnerIsNamed(d, Names(d.tree.members[c]), Names(d.tree.members[r]), request, disputed);
    correction := CorrectResults(Names(d.tree.members[c]), Names(d.tree.members[r]), request, disputed);
  }

  /**
   * From every point of every drawn tournament of at least four teams that has not been
   * corrected, some run has two teams placed first: it is played out and then corrected
   * in favour of two teams that did not win it.
   */
  lemma {:induction false} TwoFirstPlacesHappen(d: Desk, hash: (nat, UserId) -> nat, seed: nat, players: seq<UserId>,
      before: seq<Action>, now: Desk) returns (actions: seq<Action>, e: Desk)
    requires Drawable(d, players) && |players| >= 8
    requires Reaches(Started(d, hash, seed, players), before, now) && NoCorrection(before)
    ensures Reaches(now, actions, e) && |PlacedAt(e.tree, 1)| == 2
  {
    var start := Started(d, hash, seed, players);
    StartIsSane(d, hash, seed, players);
    StartIsRanked(d, hash, seed, players);
    UncorrectedRunIsRanked(start, before, now);
    FieldStays(start, before, now);
    EightPlayers(now.tree.rounds, |players|);
    var played, done := CanBeCompleted(now, 0);
    UncorrectedRunIsRanked(now, played, done);
    var correction := CorrectTwoLosers(done);
    OneAction(done, correction);
    e := Act(done, correction);
    RunsCompose(now, played, done, [correction], e);
    actions := played + [correction];
  }
}
