/** Placements over runs. */
module Standings {
  // Who is placed where after corrections, which states are reached from a drawn
  // tournament, and what registrations show of it.
  import opened Common
  import opened Bracket
  import opened Desk
  import opened Draw
  import opened Sorting
  import L = Ledger
  import S = Settlement

  // ---- uncorrected runs ----------------------------------------------------------------

  /** Registrations that `start` draws into teams, in a tournament without prizes yet. */
  ghost predicate Drawable(d: Desk, players: seq<UserId>) {
    && |players| >= 4 && IsPowerOfTwo(|players|) && NoRepeats(players)
    && (forall u :: u in players ==> u in d.registrations)
    && (forall u :: u in d.registrations ==> d.registrations[u].team == None)
    && S.Fresh(d.purse) && d.registrations.Keys <= d.purse.book.balances.Keys
  }

  lemma {:induction false} StartIsRanked(d: Desk, hash: (nat, UserId) -> nat, seed: nat, players: seq<UserId>)
    requires Drawable(d, players)
    ensures Ranked(Started(d, hash, seed, players).tree)
  {
    var e := Started(d, hash, seed, players);
    FieldSize(|players|);
    EveryPlayerOnOneTeam(hash, seed, players);
    NothingApplied(e.tree.rounds, e.tree.members);
    forall key ensures !AppliedAt(e.tree, key) { assert key !in AppliedKeys(e.tree); }
    BeginIsRanked(e.tree);
  }

  lemma {:induction false} ExpelKeepsRanked(d: Desk, user: UserId)
    requires Sane(d) && Ranked(d.tree) && user in d.registrations
    ensures Ranked(Expel(d, user).tree)
  {
    if d.registrations[user].team.Some? {
      StepKeepsAll(d.tree, TeamDisqualifiedBy(d.registrations[user].team.value));
    }
  }

  lemma {:induction false} ApplyMatchKeepsRanked(d: Desk, key: Key, disputed: set<UserId>)
    requires Sane(d) && Ranked(d.tree)
    ensures Ranked(Committed(d, ApplyMatch(d, key, disputed)).tree)
  {
    ApplyKeepsRanks(d.tree, key);
  }

  lemma {:induction false} DisqualifyKeepsRanked(d: Desk, user: UserId, disputed: set<UserId>)
    requires Sane(d) && Ranked(d.tree)
    ensures Ranked(Committed(d, DisqualifyDesk(d, user, disputed)).tree)
  {
    if user in d.registrations {
      DisqualifySane(d, user, disputed);
      ExpelKeepsRanked(d, user);
      if key :| key in ActiveMatchesOf(d.tree, user) {
        var e := Expel(d, user);
        ExpelSane(d, user);
        ForfeitedSane(d, user, key);
        StepKeepsAll(e.tree, MatchEnds(key, ForfeitWinner(d.tree.matches[key].seats, user), true));
        ApplyMatchKeepsRanked(AfterForfeit(d, user, key), key, disputed);
      }
    }
  }

  /** Without a correction the placements stay those of the bracket. */
  lemma {:induction false} ActKeepsRanked(d: Desk, a: Action)
    requires Sane(d) && Ranked(d.tree) && !a.CorrectResults?
    ensures Ranked(Act(d, a).tree)
  {
    match a {
      case EndMatch(key, side, forfeited) => StepKeepsAll(d.tree, MatchEnds(key, side, forfeited));
      case ApplyResult(key, disputed) => ApplyMatchKeepsRanked(d, key, disputed);
      case ReleaseHeld(_, _) =>
      case DisqualifyPlayer(user, disputed) => DisqualifyKeepsRanked(d, user, disputed);
      case OtherMoney(_) =>
    }
  }

  lemma {:induction false} UncorrectedRunIsRanked(d: Desk, actions: seq<Action>, e: Desk)
    requires Sane(d) && Ranked(d.tree) && Reaches(d, actions, e)
    requires forall i :: 0 <= i < |actions| ==> !actions[i].CorrectResults?
    ensures Sane(e) && Ranked(e.tree)
    decreases |actions|
  {
    if actions != [] {
      ActSane(d, actions[0]);
      ActKeepsRanked(d, actions[0]);
      UncorrectedRunIsRanked(Act(d, actions[0]), actions[1..], e);
    }
  }

  // ---- first places after a correction --------------------------------------------------

  ghost predicate NewCorrection(d: Desk, champions: seq<UserId>, runnersUp: seq<UserId>, request: nat,
      disputed: set<UserId>) {
    Sane(d) && request !in d.corrections && CorrectDesk(d, champions, runnersUp, request, disputed).Ok?
  }

  /** A correction names the new champion first and the new runner-up second; every other team keeps its place. */
  lemma {:induction false} CorrectionMovesFirstPlace(d: Desk, champions: seq<UserId>, runnersUp: seq<UserId>,
      request: nat, disputed: set<UserId>)
    requires NewCorrection(d, champions, runnersUp, request, disputed)
    ensures champions != [] && runnersUp != [] && Accepts(d.registrations, champions, runnersUp)
    ensures var c := TheTeam(d.registrations, champions); var r := TheTeam(d.registrations, runnersUp);
      var after := CorrectDesk(d, champions, runnersUp, request, disputed).value.tree;
      && PlacedAt(after, 1) == PlacedAt(d.tree, 1) - {r} + {c}
      && PlacedAt(after, 2) == PlacedAt(d.tree, 2) - {c} + {r}
      && after.matches == d.tree.matches && after.rounds == d.tree.rounds
  {
    AcceptedMeansTwoWholeTeams(d, champions, runnersUp);
    var c, r := TheTeam(d.registrations, champions), TheTeam(d.registrations, runnersUp);
    var paid := S.Correct(d.purse, d.prizePool, InIdOrder(d.tree.members[c]), InIdOrder(d.tree.members[r]), disputed);
    AcceptedCorrection(d, champions, runnersUp, c, r, paid, request, disputed);
    RecrownedPlaces(d.tree, c, r);
  }

  lemma {:induction false} RecrownedPlaces(t: Tree, c: nat, r: nat)
    requires c < |t.teams| && r < |t.teams| && c != r
    ensures var after := t.(teams := Recrown(t.teams, c, r));
      PlacedAt(after, 1) == PlacedAt(t, 1) - {r} + {c} && PlacedAt(after, 2) == PlacedAt(t, 2) - {c} + {r}
  {
    var after := t.(teams := Recrown(t.teams, c, r));
    forall i: nat | i < |t.teams|
      ensures after.teams[i].placement == if i == c then Some(1) else if i == r then Some(2) else t.teams[i].placement
    {
      RecrownCrowns(t.teams, c, r, i);
    }
  }

  lemma {:induction false} CompletedBefore(d: Desk, champions: seq<UserId>, runnersUp: seq<UserId>, request: nat,
      disputed: set<UserId>)
    requires NewCorrection(d, champions, runnersUp, request, disputed)
    ensures d.tree.status == Completed && Key(d.tree.rounds, 0) in d.tree.matches
  {
  }

  lemma {:induction false} FirstOnes(a: set<nat>, champion: nat, c: nat, r: nat)
    requires a == {champion} - {r} + {c} && c != r
    ensures |a| == (if champion in {c, r} then 1 else 2)
  {
    if champion in {c, r} { assert a == {c}; } else { assert a == {champion, c}; }
  }

  /**
   * The first correction of a completed bracket leaves exactly one team placed first
   * if and only if it names the winner of the final; otherwise two teams are.
   */
  lemma {:induction false} OneFirstPlaceExactlyWhenWinnerIsNamed(d: Desk, champions: seq<UserId>,
      runnersUp: seq<UserId>, request: nat, disputed: set<UserId>)
    requires NewCorrection(d, champions, runnersUp, request, disputed) && Ranked(d.tree)
    ensures champions != [] && runnersUp != [] && Accepts(d.registrations, champions, runnersUp)
    ensures Key(d.tree.rounds, 0) in d.tree.matches
    ensures var c := TheTeam(d.registrations, champions); var r := TheTeam(d.registrations, runnersUp);
      var first := PlacedAt(CorrectDesk(d, champions, runnersUp, request, disputed).value.tree, 1);
      && (|first| == 1 <==> WinnerOf(d.tree.matches[Key(d.tree.rounds, 0)]) in {c, r})
      && (|first| != 1 ==> |first| == 2)
  {
    CorrectionMovesFirstPlace(d, champions, runnersUp, request, disputed);
    AcceptedMeansTwoWholeTeams(d, champions, runnersUp);
    CompletedBefore(d, champions, runnersUp, request, disputed);
    OneChampion(d.tree);
    FirstOnes(PlacedAt(CorrectDesk(d, champions, runnersUp, request, disputed).value.tree, 1),
              WinnerOf(d.tree.matches[Key(d.tree.rounds, 0)]), TheTeam(d.registrations, champions),
                TheTeam(d.registrations, runnersUp));
  }

  // ---- what registrations show ------------------------------------------------------------------

  /** In a finished tournament every registration shows the placement of its team. */
  ghost predicate PlacementsShown(d: Desk) {
    d.tree.status == Completed ==>
      forall u {:trigger d.registrations[u]} :: u in d.registrations ==> ShownFor(d.tree.teams, d.registrations[u])
  }

  predicate ShownFor(teams: seq<Team>, r: Registration) {
    r.team.Some? && r.team.value < |teams| && teams[r.team.value].placement.Some? ==>
      r.placement == teams[r.team.value].placement
  }

  lemma {:induction false} CorrectionShowsPlacements(d: Desk, c: nat, r: nat, p: S.Purse, request: nat)
    requires PlacementsShown(d) && d.tree.status == Completed && c < |d.tree.teams| && r < |d.tree.teams| && c != r
    ensures PlacementsShown(Corrected(d, c, r, p, request))
  {
    var e := Corrected(d, c, r, p, request);
    forall u | u in e.registrations ensures ShownFor(e.tree.teams, e.registrations[u]) {
      assert ShownFor(d.tree.teams, d.registrations[u]);
      if d.registrations[u].team.Some? && d.registrations[u].team.value < |d.tree.teams| {
        RecrownCrowns(d.tree.teams, c, r, d.registrations[u].team.value);
      }
    }
  }

  lemma {:induction false} ResultShowsPlacements(d: Desk, key: Key, disputed: set<UserId>)
    requires Sane(d) && PlacementsShown(d)
    ensures ApplyMatch(d, key, disputed).Ok? ==> PlacementsShown(ApplyMatch(d, key, disputed).value)
  {
    ApplyKeepsShape(d.tree, key);
    if Applicable(d.tree, key) { ApplicableMeansOpen(d.tree, key); }
  }

  lemma {:induction false} SamePlacements(d: Desk, e: Desk)
    requires PlacementsShown(d) && (e.tree.status == Completed ==> d.tree.status == Completed)
    requires |e.tree.teams| == |d.tree.teams| && forall i :: 0 <= i < |d.tree.teams| ==>
      e.tree.teams[i].placement == d.tree.teams[i].placement
    requires e.registrations.Keys == d.registrations.Keys
    requires forall u :: u in d.registrations ==>
      e.registrations[u].team == d.registrations[u].team && e.registrations[u].placement == d.registrations[u].placement
    ensures PlacementsShown(e)
  {
    if e.tree.status == Completed {
      forall u | u in e.registrations ensures ShownFor(e.tree.teams, e.registrations[u]) {
        assert ShownFor(d.tree.teams, d.registrations[u]);
      }
    }
  }

  lemma {:induction false} DisqualifyShowsPlacements(d: Desk, user: UserId, disputed: set<UserId>)
    requires Sane(d) && PlacementsShown(d)
    ensures PlacementsShown(Committed(d, DisqualifyDesk(d, user, disputed)))
  {
    if user in d.registrations {
      DisqualifySane(d, user, disputed);
      SamePlacements(d, Expel(d, user));
      if key :| key in ActiveMatchesOf(d.tree, user) { ForfeitShowsPlacements(d, user, key, disputed); }
    }
  }

  lemma {:induction false} ForfeitShowsPlacements(d: Desk, user: UserId, key: Key, disputed: set<UserId>)
    requires Sane(d) && PlacementsShown(d) && user in d.registrations && key in d.tree.matches
    ensures Sane(AfterForfeit(d, user, key))
    ensures PlacementsShown(Committed(AfterForfeit(d, user, key),
      ApplyMatch(AfterForfeit(d, user, key), key, disputed)))
  {
    ForfeitedSane(d, user, key);
    SamePlacements(d, AfterForfeit(d, user, key));
    ResultShowsPlacements(AfterForfeit(d, user, key), key, disputed);
  }

  lemma {:induction false} CorrectShowsPlacements(d: Desk, champions: seq<UserId>, runnersUp: seq<UserId>, request: nat,
      disputed: set<UserId>)
    requires Sane(d) && PlacementsShown(d)
    ensures PlacementsShown(Committed(d, CorrectDesk(d, champions, runnersUp, request, disputed)))
  {
    var outcome := CorrectDesk(d, champions, runnersUp, request, disputed);
    if outcome.Ok? && request !in d.corrections {
      AcceptedMeansTwoWholeTeams(d, champions, runnersUp);
      var c, r := TheTeam(d.registrations, champions), TheTeam(d.registrations, runnersUp);
      var paid := S.Correct(d.purse, d.prizePool, InIdOrder(d.tree.members[c]), InIdOrder(d.tree.members[r]), disputed);
      AcceptedCorrection(d, champions, runnersUp, c, r, paid, request, disputed);
      CorrectionShowsPlacements(d, c, r, paid.value, request);
    }
  }

  lemma {:induction false} ActShowsPlacements(d: Desk, a: Action)
    requires Sane(d) && PlacementsShown(d)
    ensures PlacementsShown(Act(d, a))
  {
    match a {
      case EndMatch(_, _, _) => SamePlacements(d, Act(d, a));
      case ApplyResult(key, disputed) => ResultShowsPlacements(d, key, disputed);
      case CorrectResults(champions, runnersUp, request, disputed) =>
        CorrectShowsPlacements(d, champions, runnersUp, request, disputed);
      case ReleaseHeld(_, _) => SamePlacements(d, Act(d, a));
      case DisqualifyPlayer(user, disputed) => DisqualifyShowsPlacements(d, user, disputed);
      case OtherMoney(_) => SamePlacements(d, Act(d, a));
    }
  }

  lemma {:induction false} RunShowsPlacements(d: Desk, actions: seq<Action>, e: Desk)
    requires Sane(d) && PlacementsShown(d) && Reaches(d, actions, e)
    ensures PlacementsShown(e)
    decreases |actions|
  {
    if actions != [] {
      ActSane(d, actions[0]);
      ActShowsPlacements(d, actions[0]);
      RunShowsPlacements(Act(d, actions[0]), actions[1..], e);
    }
  }

  // ---- from registration to the end ----------------------------------------------------------------

  /**
   * Whatever happens to a tournament from its start on: bracket, roster, awards and
   * ledger agree, it is open exactly while some match is, and once it is over every
   * registration shows its team's placement.
   */
  lemma {:induction false} EveryTournament(d: Desk, hash: (nat, UserId) -> nat, seed: nat, players: seq<UserId>,
      actions: seq<Action>, e: Desk)
    requires Drawable(d, players) && Reaches(Started(d, hash, seed, players), actions, e)
    ensures Sane(e) && PlacementsShown(e)
    ensures e.tree.status == InProgress <==> exists key :: key in e.tree.matches && !e.tree.matches[key].applied
    ensures e.tree.status == Completed <==> |AppliedKeys(e.tree)| == |players| / 2 - 1
    ensures forall u: UserId :: S.Net(e.purse.book.rows, u) == S.CreditedTo(e.purse.awards, u)
  {
    StartIsSane(d, hash, seed, players);
    var start := Started(d, hash, seed, players);
    EveryRunIsSane(start, actions, e);
    RunShowsPlacements(start, actions, e);
    FieldStays(start, actions, e);
  }

  lemma {:induction false} FieldStays(d: Desk, actions: seq<Action>, e: Desk)
    requires Sane(d) && Reaches(d, actions, e)
    ensures |e.tree.teams| == |d.tree.teams|
    decreases |actions|
  {
    if actions != [] {
      ActSane(d, actions[0]);
      ActKeepsField(d, actions[0]);
      FieldStays(Act(d, actions[0]), actions[1..], e);
    }
  }

  lemma {:induction false} ResultKeepsField(d: Desk, key: Key, disputed: set<UserId>)
    requires Sane(d) && ApplyMatch(d, key, disputed).Ok?
    ensures |ApplyMatch(d, key, disputed).value.tree.teams| == |d.tree.teams|
  {
    ApplyCountsOnce(d.tree, key);
    ApplyKeepsShape(d.tree, key);
  }

  lemma {:induction false} ActKeepsField(d: Desk, a: Action)
    requires Sane(d)
    ensures |Act(d, a).tree.teams| == |d.tree.teams|
  {
    match a {
      case ApplyResult(key, disputed) => if ApplyMatch(d, key, disputed).Ok? { ResultKeepsField(d, key, disputed); }
      case DisqualifyPlayer(user, disputed) =>
        if user in d.registrations {
          DisqualifySane(d, user, disputed);
          if key :| key in ActiveMatchesOf(d.tree, user) {
            ForfeitedSane(d, user, key);
            if ApplyMatch(AfterForfeit(d, user, key), key, disputed).Ok? {
              ResultKeepsField(AfterForfeit(d, user, key), key, disputed);
            }
          }
        }
      case _ =>
    }
  }
}
