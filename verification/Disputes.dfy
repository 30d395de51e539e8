/** Dispute cases of a tournament. */
module Disputes {
  // A verdict is recorded in one transaction and carried out in a second one, which
  // releases or reverses the player's held prizes.
  import opened Common
  import opened Bracket
  import opened Draw
  import D = Desk
  import L = Ledger
  import P = Standings
  import S = Settlement
  import T = TournamentProgression

  datatype CaseStatus = UnderReview | AppealFiled | Cleared | Disqualified

  /** `game` is the match a case is about, `resolver` and `note` are set by its resolution. */
  datatype Case = Case(
    user: UserId,
    tournament: Option<nat>,
    game: Option<nat>,
    status: CaseStatus,
    resolver: Option<nat>,
    note: string)

  /** The ids of the tournament at hand and of its final. */
  datatype Ids = Ids(tournament: nat, final: nat)

  /** `pending` are the resolved cases whose second transaction has not gone through yet. */
  datatype Office = Office(cases: map<nat, Case>, pending: set<nat>, desk: D.Desk)

  predicate Open(c: Case) {
    c.status in {UnderReview, AppealFiled}
  }

  predicate OpenOnTournament(c: Case, ids: Ids) {
    Open(c) && c.tournament == Some(ids.tournament)
  }

  /** Whose prizes the first settlement holds: open cases naming the tournament or its final. */
  function HeldAtSettlement(cases: map<nat, Case>, ids: Ids): set<UserId> {
    set id | id in cases && Open(cases[id])
          && (cases[id].tournament == Some(ids.tournament) || cases[id].game == Some(ids.final)) :: cases[id].user
  }

  /** Whose prizes a correction holds: only open cases naming the tournament. */
  function HeldAtCorrection(cases: map<nat, Case>, ids: Ids): set<UserId> {
    set id | id in cases && OpenOnTournament(cases[id], ids) :: cases[id].user
  }

  predicate StillOpen(cases: map<nat, Case>, ids: Ids, user: UserId) {
    exists id :: id in cases && OpenOnTournament(cases[id], ids) && cases[id].user == user
  }

  /** The compare-and-set on an open status; a closed case keeps its first verdict. */
  function Close(cases: map<nat, Case>, id: nat, verdict: CaseStatus, admin: nat, note: string): map<nat, Case>
    requires id in cases
  {
    if !Open(cases[id]) then cases
    else cases[id := cases[id].(status := verdict, resolver := Some(admin), note := note)]
  }

  /** `reconcileTournamentResolution` for this tournament; a case that does not name it changes nothing here. */
  ghost function CarryOut(cases: map<nat, Case>, ids: Ids, c: Case, verdict: CaseStatus,
      d: D.Desk): Result<D.Desk, D.Refusal>
    requires |d.tree.members| == |d.tree.teams|
  {
    if c.tournament != Some(ids.tournament) then Ok(d)
    else if verdict == Disqualified then D.DisqualifyDesk(d, c.user, HeldAtSettlement(cases, ids))
    else D.ReleaseDesk(d, c.user, StillOpen(cases, ids, c.user))
  }

  // ---- whose prizes are held -----------------------------------------------------------

  function Holds(awards: seq<S.Award>): set<UserId> {
    set i | 0 <= i < |awards| && awards[i].status == S.Held :: awards[i].user
  }

  lemma {:induction false} PayHolds(p: S.Purse, user: UserId, placement: nat, amount: nat, version: nat,
      disputed: set<UserId>)
    ensures var q := S.Pay(p, user, placement, amount, version, user in disputed);
      q.Ok? ==> Holds(q.value.awards) <= Holds(p.awards) + disputed * {user}
  {
  }

  lemma {:induction false} PayTeamHolds(p: S.Purse, team: S.Finalists, placement: nat, teamPool: nat, version: nat,
      disputed: set<UserId>)
    ensures var q := S.PayTeam(p, team, placement, teamPool, version, disputed);
      q.Ok? ==> Holds(q.value.awards) <= Holds(p.awards) + disputed * D.Players(team)
  {
    PayHolds(p, team.first, placement, S.FirstShare(teamPool), version, disputed);
    var one := S.Pay(p, team.first, placement, S.FirstShare(teamPool), version, team.first in disputed);
    if one.Ok? {
      PayHolds(one.value, team.second, placement, S.SecondShare(teamPool), version, disputed);
    }
  }

  /** A settlement holds prizes only of finalists in dispute. */
  lemma {:induction false} FinalistsHolds(p: S.Purse, pool: nat, champions: S.Finalists, runnersUp: S.Finalists,
      skip: bool, disputed: set<UserId>, all: set<UserId>)
    requires D.Players(champions) <= all && D.Players(runnersUp) <= all
    ensures var q := S.PayFinalists(p, pool, champions, runnersUp, skip, disputed);
      q.Ok? ==> Holds(q.value.awards) <= Holds(p.awards) + disputed * all
  {
    var one := S.PayTeam(p, champions, 1, S.ChampionPool(pool), p.version + 1, disputed);
    var two := if one.Err? || skip then one
      else S.PayTeam(one.value, runnersUp, 2, pool - S.ChampionPool(pool), p.version + 1, disputed);
    TeamHolds(p, champions, 1, S.ChampionPool(pool), p.version + 1, disputed, all);
    if one.Ok? && !skip {
      TeamHolds(one.value, runnersUp, 2, pool - S.ChampionPool(pool), p.version + 1, disputed, all);
    }
    HoldsOfTwo(p, one, two, skip, disputed * all);
    S.PayFinalistsIs(p, pool, champions, runnersUp, skip, disputed, one, two);
  }

  lemma {:induction false} HoldsOfTwo(p: S.Purse, one: Result<S.Purse, S.Failure>, two: Result<S.Purse, S.Failure>,
      skip: bool, more: set<UserId>)
    requires one.Ok? ==> Holds(one.value.awards) <= Holds(p.awards) + more
    requires if one.Err? || skip then two == one
      else two.Ok? ==> Holds(two.value.awards) <= Holds(one.value.awards) + more
    ensures two.Ok? ==> Holds(two.value.awards) <= Holds(p.awards) + more
  {
  }

  lemma {:induction false} TeamHolds(p: S.Purse, team: S.Finalists, placement: nat, teamPool: nat, version: nat,
      disputed: set<UserId>, all: set<UserId>)
    requires D.Players(team) <= all
    ensures var q := S.PayTeam(p, team, placement, teamPool, version, disputed);
      q.Ok? ==> Holds(q.value.awards) <= Holds(p.awards) + disputed * all
  {
    PayTeamHolds(p, team, placement, teamPool, version, disputed);
    assert disputed * D.Players(team) <= disputed * all;
  }

  lemma {:induction false} TakingBackHolds(p: S.Purse, i: nat)
    requires i <= |p.awards|
    ensures S.ReverseCredited(p, i).Ok? ==> Holds(S.ReverseCredited(p, i).value.awards) <= Holds(p.awards)
    decreases |p.awards| - i
  {
    if i < |p.awards| {
      if p.awards[i].version == p.version && p.awards[i].status == S.Credited {
        if S.ReverseAt(p, i).Ok? { TakingBackHolds(S.ReverseAt(p, i).value, i + 1); }
      } else {
        TakingBackHolds(p, i + 1);
      }
    }
  }

  lemma {:induction false} CorrectionHolds(p: S.Purse, pool: nat, champions: S.Finalists, runnersUp: S.Finalists,
      disputed: set<UserId>, all: set<UserId>)
    requires D.Players(champions) <= all && D.Players(runnersUp) <= all
    ensures var q := S.Correct(p, pool, champions, runnersUp, disputed);
      q.Ok? ==> Holds(q.value.awards) <= Holds(p.awards) + disputed * all
  {
    TakingBackHolds(p, 0);
    var q := S.ReverseCredited(p, 0);
    if q.Ok? {
      FinalistsHolds(q.value.(awards := S.ReverseHeld(q.value.awards, q.value.version), prizeWon := map[]), pool,
        champions, runnersUp, false,
                     disputed, all);
    }
  }

  /** From `d` to `e` only registered players in dispute can have come under a hold. */
  ghost predicate HeldOnlyDisputed(d: D.Desk, e: D.Desk, disputed: set<UserId>) {
    && e.registrations.Keys == d.registrations.Keys
    && Holds(e.purse.awards) <= Holds(d.purse.awards) + disputed * d.registrations.Keys
  }

  lemma {:induction false} TeamIsRegistered(d: D.Desk, t: nat)
    requires D.Roster(d) && t < |d.tree.members|
    ensures D.Players(D.InIdOrder(d.tree.members[t])) <= d.registrations.Keys
  {
    assert d.tree.members[t].first in d.registrations;
  }

  lemma {:induction false} ResultHolds(d: D.Desk, key: Key, disputed: set<UserId>)
    requires D.Sane(d)
    ensures var e := D.ApplyMatch(d, key, disputed); e.Ok? ==> HeldOnlyDisputed(d, e.value, disputed)
  {
    var next := Apply(d.tree, key);
    ApplyKeepsShape(d.tree, key);
    if Applicable(d.tree, key) {
      ApplicableMeansOpen(d.tree, key);
      ApplyCountsOnce(d.tree, key);
      if key.round == d.tree.rounds {
        D.FinalRows(d, key);
        var o := OutcomeOf(d.tree.matches[key]).value;
        TeamIsRegistered(d, o.winner);
        TeamIsRegistered(d, o.loser);
        FinalistsHolds(d.purse, d.prizePool, D.InIdOrder(d.tree.members[o.winner]),
          D.InIdOrder(d.tree.members[o.loser]),
                       next.value.teams[o.loser].status == TeamDisqualified, disputed, d.registrations.Keys);
      } else {
        assert next.value.status == d.tree.status;
      }
    }
  }

  lemma {:induction false} CorrectedHolds(d: D.Desk, champions: seq<UserId>, runnersUp: seq<UserId>, request: nat,
      disputed: set<UserId>)
    requires D.Sane(d)
    ensures var e := D.CorrectDesk(d, champions, runnersUp, request, disputed);
      e.Ok? ==> HeldOnlyDisputed(d, e.value, disputed)
  {
    var e := D.CorrectDesk(d, champions, runnersUp, request, disputed);
    if e.Ok? && request !in d.corrections {
      D.AcceptedMeansTwoWholeTeams(d, champions, runnersUp);
      var c, r := D.TheTeam(d.registrations, champions), D.TheTeam(d.registrations, runnersUp);
      var paid := S.Correct(d.purse, d.prizePool, D.InIdOrder(d.tree.members[c]), D.InIdOrder(d.tree.members[r]),
        disputed);
      D.AcceptedCorrection(d, champions, runnersUp, c, r, paid, request, disputed);
      TeamIsRegistered(d, c);
      TeamIsRegistered(d, r);
      CorrectionHolds(d.purse, d.prizePool, D.InIdOrder(d.tree.members[c]), D.InIdOrder(d.tree.members[r]), disputed,
        d.registrations.Keys);
    }
  }

  lemma {:induction false} HeldForIsHolds(awards: seq<S.Award>, user: UserId)
    ensures S.HeldFor(awards, user, 0) <==> user in Holds(awards)
  {
  }

  lemma {:induction false} ReleaseHolds(p: S.Purse, user: UserId, stillOpen: bool)
    requires S.Sound(p)
    ensures var q := S.Release(p, user, stillOpen);
      q.Ok? ==> Holds(q.value.awards) == if stillOpen then Holds(p.awards) else Holds(p.awards) - {user}
  {
    S.ReleaseFromKeeps(p, user, 0);
    if !stillOpen && S.ReleaseFrom(p, user, 0).Ok? {
      var r := S.ReleaseFrom(p, user, 0).value;
      forall u ensures u in Holds(r.awards) <==> u in Holds(p.awards) - {user} {
        if u in Holds(p.awards) - {user} {
          var i :| 0 <= i < |p.awards| && p.awards[i].status == S.Held && p.awards[i].user == u;
          assert r.awards[i].user == u;
        }
      }
    }
  }

  lemma {:induction false} ExpelHolds(d: D.Desk, user: UserId)
    requires user in d.registrations
    ensures Holds(D.Expel(d, user).purse.awards) == Holds(d.purse.awards) - {user}
  {
    var a, b := d.purse.awards, D.Expel(d, user).purse.awards;
    forall u | u in Holds(a) - {user} ensures u in Holds(b) {
      var i :| 0 <= i < |a| && a[i].status == S.Held && a[i].user == u;
      assert b[i] == a[i];
    }
  }

  /** A disqualified player comes out with nothing held, unless the forfeit itself settles the final. */
  lemma {:induction false} DisqualifyHolds(d: D.Desk, user: UserId, disputed: set<UserId>)
    requires D.Sane(d)
    ensures var e := D.DisqualifyDesk(d, user, disputed);
      e.Ok? ==>
        && HeldOnlyDisputed(d, e.value, disputed)
        && (user in Holds(e.value.purse.awards) ==> user in disputed || user !in d.registrations)
  {
    if user in d.registrations {
      D.DisqualifySane(d, user, disputed);
      ExpelHolds(d, user);
      if key :| key in ActiveMatchesOf(d.tree, user) { ForfeitHolds(d, user, key, disputed); }
    }
  }

  lemma {:induction false} ForfeitHolds(d: D.Desk, user: UserId, key: Key, disputed: set<UserId>)
    requires D.Sane(d) && user in d.registrations && key in d.tree.matches
    ensures var e := D.ApplyMatch(D.AfterForfeit(d, user, key), key, disputed);
      e.Ok? ==> HeldOnlyDisputed(d, e.value, disputed) && (user in Holds(e.value.purse.awards) ==> user in disputed)
  {
    ExpelHolds(d, user);
    D.ForfeitedSane(d, user, key);
    ResultHolds(D.AfterForfeit(d, user, key), key, disputed);
  }

  // ---- a disqualification carried out again ------------------------------------------------

  /** The player and the player's team are marked, and there is no prize held or shown. */
  ghost predicate Expelled(d: D.Desk, user: UserId) {
    && user in d.registrations && d.registrations[user].disqualified
    && (d.registrations[user].team.Some? && d.registrations[user].team.value < |d.tree.teams| ==>
          d.tree.teams[d.registrations[user].team.value].status == TeamDisqualified)
    && user !in Holds(d.purse.awards) && user !in d.purse.prizeWon
  }

  /** Expelling twice is expelling once. */
  lemma {:induction false} ExpelledAlready(d: D.Desk, user: UserId)
    requires Expelled(d, user)
    ensures D.Expel(d, user) == d
  {
    var b := D.Expel(d, user).purse.awards;
    forall i | 0 <= i < |d.purse.awards| ensures b[i] == d.purse.awards[i] {}
    assert b == d.purse.awards;
    assert d.registrations[user].(disqualified := true) == d.registrations[user];
    assert D.Expel(d, user).registrations == d.registrations;
    assert D.Expel(d, user).tree.teams == d.tree.teams;
  }

  lemma {:induction false} ExpelStays(d: D.Desk, user: UserId)
    requires user in d.registrations
    ensures Expelled(D.Expel(d, user), user) && D.Expel(D.Expel(d, user), user) == D.Expel(d, user)
  {
    ExpelHolds(d, user);
    ExpelledAlready(D.Expel(d, user), user);
  }

  /** After the forfeit the loser is out: it plays in no match that is still open. */
  lemma {:induction false} LoserPlaysNoMore(d: D.Desk, user: UserId, key: Key, team: nat)
    requires D.Sane(d) && user in d.registrations && d.registrations[user].team == Some(team)
    requires AppliedAt(d.tree, key) && LoserOf(d.tree.matches[key]) == team
    ensures ActiveMatchesOf(d.tree, user) == {}
  {
    assert MatchOk(d.tree, key);
    PlaysInOwnSlot(d.tree, team, key);
    assert LostIn(d.tree, team, key.round);
    forall k | k in d.tree.matches && Seated(d.tree.matches[k], user) ensures d.tree.matches[k].status != Playing {
      var other := D.SeatedPlays(d, user, k);
      assert d.tree.members[other].first in d.registrations;
      assert MatchOk(d.tree, k);
      if !d.tree.matches[k].applied { NotYetOut(d.tree, team, k, key.round); }
    }
  }

  /** What the settlement of a final does for a player of the disqualified loser: nothing. */
  lemma {:induction false} LoserGetsNothing(p: S.Purse, pool: nat, champions: S.Finalists, runnersUp: S.Finalists,
      disputed: set<UserId>, user: UserId)
    requires p.awards == [] && user !in p.prizeWon && user !in D.Players(champions)
    ensures var q := S.Settle(p, pool, champions, runnersUp, true, disputed);
      q.Ok? ==> user !in Holds(q.value.awards) && user !in q.value.prizeWon
  {
    FinalistsHoldsSkipping(p, pool, champions, runnersUp, disputed);
    PayShowsOnly(p, champions.first, 1, S.FirstShare(S.ChampionPool(pool)), p.version + 1, champions.first in disputed);
    var one := S.Pay(p, champions.first, 1, S.FirstShare(S.ChampionPool(pool)), p.version + 1,
      champions.first in disputed);
    if one.Ok? {
      PayShowsOnly(one.value, champions.second, 1, S.SecondShare(S.ChampionPool(pool)), p.version + 1,
        champions.second in disputed);
    }
  }

  lemma {:induction false} PayShowsOnly(p: S.Purse, user: UserId, placement: nat, amount: nat, version: nat,
      disputed: bool)
    ensures var q := S.Pay(p, user, placement, amount, version, disputed);
      q.Ok? ==> q.value.prizeWon.Keys <= p.prizeWon.Keys + {user}
  {
  }

  lemma {:induction false} FinalistsHoldsSkipping(p: S.Purse, pool: nat, champions: S.Finalists, runnersUp: S.Finalists,
      disputed: set<UserId>)
    ensures var q := S.Settle(p, pool, champions, runnersUp, true, disputed);
      q.Ok? ==> Holds(q.value.awards) <= Holds(p.awards) + disputed * D.Players(champions)
  {
    PayTeamHolds(p, champions, 1, S.ChampionPool(pool), p.version + 1, disputed);
    var one := S.PayTeam(p, champions, 1, S.ChampionPool(pool), p.version + 1, disputed);
    S.PayFinalistsIs(p, pool, champions, runnersUp, true, disputed, one, one);
  }

  /** The forfeited match has been applied, with the player's team as its loser. */
  ghost predicate Out(d: D.Desk, user: UserId, key: Key, team: nat) {
    && Expelled(d, user) && d.registrations[user].team == Some(team)
    && AppliedAt(d.tree, key) && LoserOf(d.tree.matches[key]) == team
  }

  /** Applying the forfeit leaves the disqualified player disqualified, out of the bracket and without a prize. */
  lemma {:induction false} ForfeitLeavesNothing(d: D.Desk, user: UserId, key: Key, team: nat, disputed: set<UserId>)
    requires D.Sane(d) && Expelled(d, user) && d.registrations[user].team == Some(team) && team < |d.tree.teams|
    requires Applicable(d.tree, key) && LoserOf(d.tree.matches[key]) == team && D.ApplyMatch(d, key, disputed).Ok?
    ensures D.Sane(D.ApplyMatch(d, key, disputed).value) && Out(D.ApplyMatch(d, key, disputed).value, user, key, team)
  {
    D.ApplyMatchSane(d, key, disputed);
    ApplyKeepsShape(d.tree, key);
    ForfeitRows(d.tree, key, team);
    if key.round == d.tree.rounds { FinalLeavesNothing(d, user, key, team, disputed); }
  }

  lemma {:induction false} FinalLeavesNothing(d: D.Desk, user: UserId, key: Key, team: nat, disputed: set<UserId>)
    requires D.Sane(d) && Expelled(d, user) && d.registrations[user].team == Some(team) && team < |d.tree.teams|
    requires Applicable(d.tree, key) && key.round == d.tree.rounds && LoserOf(d.tree.matches[key]) == team &&
      D.ApplyMatch(d, key, disputed).Ok?
    ensures var e := D.ApplyMatch(d, key, disputed).value;
      && user in e.registrations && e.registrations[user].team == Some(team) && e.registrations[user].disqualified
      && user !in Holds(e.purse.awards) && user !in e.purse.prizeWon
      && e.tree == Apply(d.tree, key).value
  {
    D.FinalRows(d, key);
    S.AwardsMeanSettled(d.purse);
    var m := d.tree.matches[key];
    assert d.tree.members[WinnerOf(m)].first in d.registrations;
    LoserGetsNothing(d.purse, d.prizePool, D.InIdOrder(d.tree.members[WinnerOf(m)]),
      D.InIdOrder(d.tree.members[LoserOf(m)]), disputed, user);
  }

  lemma {:induction false} ForfeitRows(t: Tree, key: Key, team: nat)
    requires Shape(t) && Applicable(t, key) && LoserOf(t.matches[key]) == team && team < |t.teams| &&
      t.teams[team].status == TeamDisqualified
    requires Apply(t, key).Ok?
    ensures var next := Apply(t, key).value;
      && |next.teams| == |t.teams| && next.teams[team].status == TeamDisqualified
      && AppliedAt(next, key) && LoserOf(next.matches[key]) == team
      && (next.status != t.status <==> key.round == t.rounds)
  {
    ApplicableMeansOpen(t, key);
    OutcomeIsRight(t, key);
    assert MatchOk(t, key);
    if key.round < t.rounds { NoParentYet(t, key); }
  }

  /** After the forfeit has been applied the player is out and plays nowhere. */
  lemma {:induction false} ForfeitEndsIt(d: D.Desk, user: UserId, key: Key, disputed: set<UserId>)
    requires D.Sane(d) && user in d.registrations && key in ActiveMatchesOf(d.tree, user)
    requires D.ApplyMatch(D.AfterForfeit(d, user, key), key, disputed).Ok?
    ensures var e := D.ApplyMatch(D.AfterForfeit(d, user, key), key, disputed).value;
      D.Sane(e) && Expelled(e, user) && ActiveMatchesOf(e.tree, user) == {}
  {
    var team := D.ForfeitLoses(d, user, key);
    D.ForfeitedSane(d, user, key);
    ExpelStays(d, user);
    ForfeitLeavesNothing(D.AfterForfeit(d, user, key), user, key, team, disputed);
    LoserPlaysNoMore(D.ApplyMatch(D.AfterForfeit(d, user, key), key, disputed).value, user, key, team);
  }

  /** Carrying out the same disqualification twice in a row changes nothing the second time. */
  lemma {:induction false} DisqualifyingAgainChangesNothing(d: D.Desk, user: UserId, disputed: set<UserId>,
      later: set<UserId>)
    requires D.Sane(d) && D.DisqualifyDesk(d, user, disputed).Ok?
    ensures var e := D.DisqualifyDesk(d, user, disputed).value;
      |e.tree.members| == |e.tree.teams| && D.DisqualifyDesk(e, user, later) == Ok(e)
  {
    var e := D.DisqualifyDesk(d, user, disputed).value;
    D.DisqualifySane(d, user, disputed);
    if user in d.registrations {
      D.DisqualifySane(e, user, later);
      if key :| key in ActiveMatchesOf(d.tree, user) {
        ForfeitEndsIt(d, user, key, disputed);
        ExpelledAlready(e, user);
      } else {
        ExpelStays(d, user);
        assert ActiveMatchesOf(e.tree, user) == ActiveMatchesOf(d.tree, user);
      }
    }
  }

  /** Once prizes exist the bracket is over: a disqualification then writes its own rows and nothing else. */
  lemma {:induction false} AfterSettlementDisqualifyOnlyExpels(d: D.Desk, user: UserId, disputed: set<UserId>)
    requires D.Sane(d) && user in d.registrations && d.purse.awards != []
    ensures D.DisqualifyDesk(d, user, disputed) == Ok(D.Expel(d, user))
  {
    assert d.purse.awards[0].version >= 1;
    NeverStuck(d.tree);
    D.DisqualifySane(d, user, disputed);
    forall key | key in d.tree.matches ensures d.tree.matches[key].status != Playing {
      assert MatchOk(d.tree, key);
    }
  }

  // ---- every run -----------------------------------------------------------------------------

  datatype Action =
    | File(id: nat, filed: Case)
    | Appeal(id: nat)
    | Resolve(id: nat, verdict: CaseStatus, admin: nat, text: string)
    | Reconcile(id: nat)
    | EndMatch(key: Key, side: nat, forfeited: bool)
    | ApplyResult(key: Key)
    | CorrectResults(champions: seq<UserId>, runnersUp: seq<UserId>, request: nat)
    | OtherMoney(entry: L.Entry<S.Ref>)

  /** What the tournament does on its own; the disputed players are read off the cases. */
  function OnDesk(o: Office, ids: Ids, a: Action): D.Action
    requires a.EndMatch? || a.ApplyResult? || a.CorrectResults? || a.OtherMoney?
  {
    match a
    case EndMatch(key, side, forfeited) => D.EndMatch(key, side, forfeited)
    case ApplyResult(key) => D.ApplyResult(key, HeldAtSettlement(o.cases, ids))
    case CorrectResults(champions, runnersUp, request) =>
      D.CorrectResults(champions, runnersUp, request, HeldAtCorrection(o.cases, ids))
    case OtherMoney(entry) => D.OtherMoney(entry)
  }

  /**
   * One transaction. `Reconcile` follows a `Resolve`, but any number of other steps
   * may come between them, it may never come (a crash), be refused, or come again
   * (an exact retry).
   */
  ghost function Act(o: Office, ids: Ids, a: Action): Office
    requires |o.desk.tree.members| == |o.desk.tree.teams|
  {
    match a
    case File(id, c) => if id in o.cases || !Open(c) then o else o.(cases := o.cases[id := c])
    case Appeal(id) =>
      if id in o.cases && Open(o.cases[id]) then o.(cases := o.cases[id := o.cases[id].(status := AppealFiled)]) else o
    case Resolve(id, verdict, admin, text) =>
      if id in o.cases && Open(o.cases[id]) && verdict in {Cleared, Disqualified}
      then o.(cases := Close(o.cases, id, verdict, admin, text), pending := o.pending + {id}) else o
    case Reconcile(id) =>
      if id !in o.cases || Open(o.cases[id]) then o
      else
        (match CarryOut(o.cases, ids, o.cases[id], o.cases[id].status, o.desk)
         case Err(_) => o
         case Ok(d) => o.(desk := d, pending := o.pending - {id}))
    case _ => o.(desk := D.Act(o.desk, OnDesk(o, ids, a)))
  }

  /**
   * Why a prize of the player may be held: an open case, a verdict still to be
   * carried out, or a closed case that named only the final.
   */
  predicate Reason(o: Office, ids: Ids, id: nat, user: UserId) {
    && id in o.cases && o.cases[id].user == user
    && var c := o.cases[id];
       if c.tournament == Some(ids.tournament) then Open(c) || id in o.pending else c.game == Some(ids.final)
  }

  ghost predicate Reasoned(o: Office, ids: Ids, user: UserId) {
    exists id :: Reason(o, ids, id, user)
  }

  ghost predicate AllReasoned(o: Office, ids: Ids) {
    && D.Sane(o.desk)
    && Holds(o.desk.purse.awards) <= o.desk.registrations.Keys
    && forall user {:trigger Reasoned(o, ids, user)} :: user in Holds(o.desk.purse.awards) ==> Reasoned(o, ids, user)
  }

  /** Cases only ever lose their reason when their verdict is carried out. */
  lemma {:induction false} CaseStepKeepsReasons(o: Office, ids: Ids, a: Action)
    requires AllReasoned(o, ids) && (a.File? || a.Appeal? || a.Resolve?)
    ensures AllReasoned(Act(o, ids, a), ids)
  {
    var q := Act(o, ids, a);
    forall user | user in Holds(q.desk.purse.awards) ensures Reasoned(q, ids, user) {
      assert Reasoned(o, ids, user);
      var id :| Reason(o, ids, id, user);
      assert Reason(q, ids, id, user);
    }
  }

  lemma {:induction false} OpenCaseIsReason(o: Office, ids: Ids, user: UserId)
    requires user in HeldAtSettlement(o.cases, ids)
    ensures Reasoned(o, ids, user)
  {
    var id :| id in o.cases && Open(o.cases[id]) && o.cases[id].user == user
      && (o.cases[id].tournament == Some(ids.tournament) || o.cases[id].game == Some(ids.final));
    assert Reason(o, ids, id, user);
  }

  /** New holds are for players with an open case. */
  lemma {:induction false} NewHoldsKeepReasons(o: Office, ids: Ids, d: D.Desk)
    requires AllReasoned(o, ids) && D.Sane(d)
    requires HeldOnlyDisputed(o.desk, d, HeldAtSettlement(o.cases, ids))
    ensures AllReasoned(o.(desk := d), ids)
  {
    var q := o.(desk := d);
    forall user | user in Holds(d.purse.awards) ensures Reasoned(q, ids, user) {
      if user in HeldAtSettlement(o.cases, ids) {
        OpenCaseIsReason(q, ids, user);
      } else {
        assert Reasoned(o, ids, user);
        var id :| Reason(o, ids, id, user);
        assert Reason(q, ids, id, user);
      }
    }
  }

  lemma {:induction false} DeskStepKeepsReasons(o: Office, ids: Ids, a: Action)
    requires AllReasoned(o, ids)
    requires a.EndMatch? || a.ApplyResult? || a.CorrectResults? || a.OtherMoney?
    ensures AllReasoned(Act(o, ids, a), ids)
  {
    var d := D.Act(o.desk, OnDesk(o, ids, a));
    D.ActSane(o.desk, OnDesk(o, ids, a));
    match a {
      case EndMatch(key, side, forfeited) => NoMoneyMoved(o.desk, d, HeldAtSettlement(o.cases, ids));
      case OtherMoney(entry) => NoMoneyMoved(o.desk, d, HeldAtSettlement(o.cases, ids));
      case ApplyResult(key) => ResultHolds(o.desk, key, HeldAtSettlement(o.cases, ids));
      case CorrectResults(champions, runnersUp, request) =>
        CorrectedHolds(o.desk, champions, runnersUp, request, HeldAtCorrection(o.cases, ids));
        FewerAtCorrection(o.desk, d, o.cases, ids);
    }
    NewHoldsKeepReasons(o, ids, d);
  }

  lemma {:induction false} NoMoneyMoved(d: D.Desk, e: D.Desk, disputed: set<UserId>)
    requires e.registrations == d.registrations && e.purse.awards == d.purse.awards
    ensures HeldOnlyDisputed(d, e, disputed)
  {
  }

  lemma {:induction false} FewerAtCorrection(d: D.Desk, e: D.Desk, cases: map<nat, Case>, ids: Ids)
    requires e == d || HeldOnlyDisputed(d, e, HeldAtCorrection(cases, ids))
    ensures HeldOnlyDisputed(d, e, HeldAtSettlement(cases, ids))
  {
    assert HeldAtCorrection(cases, ids) <= HeldAtSettlement(cases, ids);
  }

  lemma {:induction false} StillOpenIsDisputed(cases: map<nat, Case>, ids: Ids, user: UserId)
    requires StillOpen(cases, ids, user)
    ensures user in HeldAtSettlement(cases, ids)
  {
  }

  /** A verdict that went through leaves the player's prizes held only for another open case. */
  lemma {:induction false} CarriedOut(cases: map<nat, Case>, ids: Ids, c: Case, verdict: CaseStatus, d: D.Desk)
    requires D.Sane(d) && Holds(d.purse.awards) <= d.registrations.Keys
    ensures var e := CarryOut(cases, ids, c, verdict, d);
      e.Ok? ==>
        && D.Sane(e.value)
        && HeldOnlyDisputed(d, e.value, HeldAtSettlement(cases, ids))
        && (c.tournament == Some(ids.tournament) && c.user in Holds(e.value.purse.awards) ==>
           c.user in HeldAtSettlement(cases, ids))
  {
    if c.tournament == Some(ids.tournament) {
      if verdict == Disqualified {
        D.DisqualifySane(d, c.user, HeldAtSettlement(cases, ids));
        DisqualifyHolds(d, c.user, HeldAtSettlement(cases, ids));
      } else {
        D.ReleaseSane(d, c.user, StillOpen(cases, ids, c.user));
        ReleaseHolds(d.purse, c.user, StillOpen(cases, ids, c.user));
        if StillOpen(cases, ids, c.user) { StillOpenIsDisputed(cases, ids, c.user); }
      }
    }
  }

  lemma {:induction false} ReconcileKeepsReasons(o: Office, ids: Ids, id: nat)
    requires AllReasoned(o, ids)
    ensures AllReasoned(Act(o, ids, Reconcile(id)), ids)
  {
    if id in o.cases && !Open(o.cases[id]) {
      var c := o.cases[id];
      CarriedOut(o.cases, ids, c, c.status, o.desk);
      var e := CarryOut(o.cases, ids, c, c.status, o.desk);
      if e.Ok? {
        NewHoldsKeepReasons(o, ids, e.value);
        WithoutPending(o.(desk := e.value), ids, id);
      }
    }
  }

  /** A carried-out verdict can be struck off: the player no longer needs it as a reason. */
  lemma {:induction false} WithoutPending(o: Office, ids: Ids, id: nat)
    requires AllReasoned(o, ids) && id in o.cases && !Open(o.cases[id])
    requires o.cases[id].tournament == Some(ids.tournament) && o.cases[id].user in Holds(o.desk.purse.awards) ==>
      o.cases[id].user in HeldAtSettlement(o.cases, ids)
    ensures AllReasoned(o.(pending := o.pending - {id}), ids)
  {
    var q := o.(pending := o.pending - {id});
    forall user | user in Holds(q.desk.purse.awards) ensures Reasoned(q, ids, user) {
      assert Reasoned(o, ids, user);
      var k :| Reason(o, ids, k, user);
      if Reason(q, ids, k, user) {
      } else {
        OpenCaseIsReason(q, ids, user);
      }
    }
  }

  ghost predicate Reaches(o: Office, ids: Ids, actions: seq<Action>, q: Office)
    decreases |actions|
  {
    if actions == [] then o == q
    else |o.desk.tree.members| == |o.desk.tree.teams| && Reaches(Act(o, ids, actions[0]), ids, actions[1..], q)
  }

  lemma {:induction false} RunKeepsReasons(o: Office, ids: Ids, actions: seq<Action>, q: Office)
    requires AllReasoned(o, ids) && Reaches(o, ids, actions, q)
    ensures AllReasoned(q, ids)
    decreases |actions|
  {
    if actions != [] {
      var a := actions[0];
      if a.File? || a.Appeal? || a.Resolve? {
        CaseStepKeepsReasons(o, ids, a);
      } else if a.Reconcile? {
        ReconcileKeepsReasons(o, ids, a.id);
      } else {
        DeskStepKeepsReasons(o, ids, a);
      }
      RunKeepsReasons(Act(o, ids, a), ids, actions[1..], q);
    }
  }

  /** A tournament as it is drawn, with the cases filed so far. */
  function AtStart(d: D.Desk, hash: (nat, UserId) -> nat, seed: nat, players: seq<UserId>,
      cases: map<nat, Case>): Office
    requires forall u :: u in players ==> u in d.registrations
  {
    Office(cases, {}, D.Started(d, hash, seed, players))
  }

  lemma {:induction false} NothingHeldAtStart(d: D.Desk, hash: (nat, UserId) -> nat, seed: nat, players: seq<UserId>,
      cases: map<nat, Case>, ids: Ids)
    requires P.Drawable(d, players)
    ensures AllReasoned(AtStart(d, hash, seed, players, cases), ids)
  {
    D.StartIsSane(d, hash, seed, players);
  }

  /**
   * Every run from a drawn tournament, with any filings, appeals, verdicts, late,
   * refused, lost and repeated second transactions, results and corrections: a prize is
   * held only while its player has an open case, a verdict still to be carried out, or a
   * case that named the final and not the tournament.
   */
  lemma {:induction false} EveryRun(d: D.Desk, hash: (nat, UserId) -> nat, seed: nat, players: seq<UserId>,
      cases: map<nat, Case>, ids: Ids, actions: seq<Action>, q: Office)
    requires P.Drawable(d, players) && Reaches(AtStart(d, hash, seed, players, cases), ids, actions, q)
    ensures AllReasoned(q, ids)
    ensures forall i :: 0 <= i < |q.desk.purse.awards| && q.desk.purse.awards[i].status == S.Held ==>
      Reasoned(q, ids, q.desk.purse.awards[i].user)
  {
    NothingHeldAtStart(d, hash, seed, players, cases, ids);
    RunKeepsReasons(AtStart(d, hash, seed, players, cases), ids, actions, q);
    forall i | 0 <= i < |q.desk.purse.awards| && q.desk.purse.awards[i].status == S.Held
      ensures Reasoned(q, ids, q.desk.purse.awards[i].user)
    {
      assert q.desk.purse.awards[i].user in Holds(q.desk.purse.awards);
    }
  }

  lemma {:induction false} NoReasonLeft(o: Office, ids: Ids, user: UserId)
    requires o.pending == {} && forall id :: id in o.cases ==> !OpenOnTournament(o.cases[id], ids)
    requires forall id :: id in o.cases && o.cases[id].game == Some(ids.final) ==>
      o.cases[id].tournament == Some(ids.tournament)
    ensures !Reasoned(o, ids, user)
  {
    forall id ensures !Reason(o, ids, id, user) {
      assert id in o.cases ==> !OpenOnTournament(o.cases[id], ids);
    }
  }

  /** With every case resolved and carried out, and none that named only the final, no prize is left held. */
  lemma {:induction false} NothingHeldOnceCarriedOut(d: D.Desk, hash: (nat, UserId) -> nat, seed: nat,
      players: seq<UserId>, cases: map<nat, Case>, ids: Ids, actions: seq<Action>, q: Office)
    requires P.Drawable(d, players) && Reaches(AtStart(d, hash, seed, players, cases), ids, actions, q)
    requires q.pending == {} && forall id :: id in q.cases ==> !OpenOnTournament(q.cases[id], ids)
    requires forall id :: id in q.cases && q.cases[id].game == Some(ids.final) ==>
      q.cases[id].tournament == Some(ids.tournament)
    ensures !S.AnyHeld(q.desk.purse.awards)
  {
    EveryRun(d, hash, seed, players, cases, ids, actions, q);
    forall i | 0 <= i < |q.desk.purse.awards| ensures q.desk.purse.awards[i].status != S.Held {
      NoReasonLeft(q, ids, q.desk.purse.awards[i].user);
    }
  }

  /**
   * When carrying out a verdict lets go of a held prize: the case must name the
   * tournament, and a clearance also needs the last open case gone and a wallet
   * that is not overdrawn. A case that names only the final never lets go.
   */
  lemma {:induction false} LetsGoExactlyWhen(o: Office, ids: Ids, id: nat)
    requires AllReasoned(o, ids) && id in o.cases && !Open(o.cases[id]) &&
      o.cases[id].user in Holds(o.desk.purse.awards)
    ensures var c := o.cases[id];
      c.user !in Holds(Act(o, ids, Reconcile(id)).desk.purse.awards) <==>
        && c.tournament == Some(ids.tournament)
        && (c.status == Disqualified
            || (!StillOpen(o.cases, ids, c.user) && o.desk.purse.book.balances[c.user] >= 0))
  {
    var c := o.cases[id];
    if c.tournament == Some(ids.tournament) {
      if c.status == Disqualified {
        AfterSettlementDisqualifyOnlyExpels(o.desk, c.user, HeldAtSettlement(o.cases, ids));
        ExpelHolds(o.desk, c.user);
      } else {
        S.ReleaseSound(o.desk.purse, c.user, StillOpen(o.cases, ids, c.user));
        HeldForIsHolds(o.desk.purse.awards, c.user);
        ReleaseHolds(o.desk.purse, c.user, StillOpen(o.cases, ids, c.user));
      }
    }
  }

  /** The final is settled with the winner's first player in dispute: that prize is held. */
  lemma {:induction false} FinalHoldsDisputed(d: D.Desk, key: Key, user: UserId)
    requires D.Sane(d) && Applicable(d.tree, key) && key.round == d.tree.rounds
    requires forall u :: u in d.purse.book.balances ==> d.purse.book.balances[u] >= 0
    requires WinnerOf(d.tree.matches[key]) < |d.tree.members| && LoserOf(d.tree.matches[key]) < |d.tree.teams|
    requires user == D.InIdOrder(d.tree.members[WinnerOf(d.tree.matches[key])]).first
    requires d.tree.teams[LoserOf(d.tree.matches[key])].status != TeamDisqualified
    ensures D.ApplyMatch(d, key, {user}).Ok? && user in Holds(D.ApplyMatch(d, key, {user}).value.purse.awards)
  {
    D.FinalRows(d, key);
    var m := d.tree.matches[key];
    D.ApplyMatchSane(d, key, {user});
    D.FinalistsAreFour(d, WinnerOf(m), LoserOf(m));
    S.AwardsMeanSettled(d.purse);
    var champions, runnersUp := D.InIdOrder(d.tree.members[WinnerOf(m)]), D.InIdOrder(d.tree.members[LoserOf(m)]);
    assert D.FinalPayable(d, m, {user});
    assert S.Settle(d.purse, d.prizePool, champions, runnersUp, false, {user}).Ok?;
    S.OneHold(d.purse, d.prizePool, champions, runnersUp);
  }

  /** The final has been decided for the first team, and `user` is its first player. */
  ghost predicate FinalDecided(d: D.Desk, user: UserId) {
    && D.Sane(d) && Applicable(d.tree, Key(1, 0)) && d.tree.rounds == 1 && |d.tree.members| == |d.tree.teams| == 2
    && WinnerOf(d.tree.matches[Key(1, 0)]) == 0 && LoserOf(d.tree.matches[Key(1, 0)]) == 1
    && d.tree.teams[1].status == Active && user == D.InIdOrder(d.tree.members[0]).first
    && forall u :: u in d.purse.book.balances ==> d.purse.book.balances[u] >= 0
  }

  lemma {:induction false} OnlyMatchDecided(d: D.Desk)
    requires D.Sane(d) && d.tree == Begin(1, d.tree.members)
    requires forall u :: u in d.purse.book.balances ==> d.purse.book.balances[u] >= 0
    ensures |d.tree.members| == 2 &&
      FinalDecided(D.Act(d, D.EndMatch(Key(1, 0), 0, false)), D.InIdOrder(d.tree.members[0]).first)
  {
    D.ActSane(d, D.EndMatch(Key(1, 0), 0, false));
    assert Pow2(1) == 2 * Pow2(0);
    FirstRoundMatch(1, d.tree.members, Key(1, 0));
  }

  /** The case: it names the final and not the tournament. */
  function FinalOnly(user: UserId, ids: Ids, status: CaseStatus): Case {
    Case(user, None, Some(ids.final), status, if status == Cleared then Some(0) else None, "")
  }

  lemma {:induction false} OneDisputed(user: UserId, ids: Ids)
    ensures HeldAtSettlement(map[0 := FinalOnly(user, ids, UnderReview)], ids) == {user}
  {
    var cases := map[0 := FinalOnly(user, ids, UnderReview)];
    assert 0 in cases && Open(cases[0]);
  }

  lemma {:induction false} OneAction(o: Office, ids: Ids, actions: seq<Action>, mid: Office, a: Action)
    requires Reaches(o, ids, actions, mid) && |mid.desk.tree.members| == |mid.desk.tree.teams|
    ensures Reaches(o, ids, actions + [a], Act(mid, ids, a))
    decreases |actions|
  {
    if actions == [] {
      assert ([] + [a])[0] == a && ([] + [a])[1..] == [];
    } else {
      assert (actions + [a])[0] == actions[0] && (actions + [a])[1..] == actions[1..] + [a];
      OneAction(Act(o, ids, actions[0]), ids, actions[1..], mid, a);
    }
  }

  /** A clearance of a case that names only the final, resolved and carried out, leaves the desk alone. */
  lemma {:induction false} ClearedInVain(o: Office, user: UserId, ids: Ids)
    requires o.cases == map[0 := FinalOnly(user, ids, UnderReview)] && o.pending == {}
    requires |o.desk.tree.members| == |o.desk.tree.teams|
    ensures var r := Act(o, ids, Resolve(0, Cleared, 0, ""));
      r.desk == o.desk && Act(r, ids, Reconcile(0)) == Office(map[0 := FinalOnly(user, ids, Cleared)], {}, o.desk)
  {
    var r := Act(o, ids, Resolve(0, Cleared, 0, ""));
    assert r.cases == map[0 := FinalOnly(user, ids, Cleared)] && r.pending == {0};
    assert r.pending - {0} == {};
  }

  lemma {:induction false} FiledAndDecided(d: D.Desk, ids: Ids, user: UserId) returns (actions: seq<Action>, q: Office)
    requires D.Sane(d) && d.tree == Begin(1, d.tree.members) && |d.tree.members| == 2
    requires forall u :: u in d.purse.book.balances ==> d.purse.book.balances[u] >= 0
    requires user == D.InIdOrder(d.tree.members[0]).first
    ensures Reaches(Office(map[], {}, d), ids, actions, q) && FinalDecided(q.desk, user)
    ensures q.cases == map[0 := FinalOnly(user, ids, UnderReview)] && q.pending == {}
  {
    var o := Office(map[], {}, d);
    var file, end := File(0, FinalOnly(user, ids, UnderReview)), EndMatch(Key(1, 0), 0, false);
    OneAction(o, ids, [], o, file);
    var withCase := Filed(d, ids, user);
    FilingAdds(d, ids, user);
    OnlyMatchDecided(d);
    OneAction(o, ids, [] + [file], withCase, end);
    OnDeskOnly(withCase, ids, end);
    actions, q := [] + [file] + [end], withCase.(desk := D.Act(d, D.EndMatch(Key(1, 0), 0, false)));
  }

  function Filed(d: D.Desk, ids: Ids, user: UserId): Office {
    Office(map[0 := FinalOnly(user, ids, UnderReview)], {}, d)
  }

  lemma {:induction false} FilingAdds(d: D.Desk, ids: Ids, user: UserId)
    requires |d.tree.members| == |d.tree.teams|
    ensures Act(Office(map[], {}, d), ids, File(0, FinalOnly(user, ids, UnderReview))) == Filed(d, ids, user)
  {
  }

  /** Ends and results change nothing but the desk. */
  lemma {:induction false} OnDeskOnly(o: Office, ids: Ids, a: Action)
    requires |o.desk.tree.members| == |o.desk.tree.teams| && (a.EndMatch? || a.ApplyResult?)
    ensures Act(o, ids, a) == o.(desk := D.Act(o.desk, OnDesk(o, ids, a)))
  {
  }

  /** The settlement holds the prize. */
  lemma {:induction false} HeldForTheFinal(mid: Office, ids: Ids, user: UserId)
    requires FinalDecided(mid.desk, user) && mid.cases == map[0 := FinalOnly(user, ids, UnderReview)]
    ensures var q := Act(mid, ids, ApplyResult(Key(1, 0)));
      q.cases == mid.cases && q.pending == mid.pending && D.Sane(q.desk) && user in Holds(q.desk.purse.awards)
  {
    OneDisputed(user, ids);
    OnDeskOnly(mid, ids, ApplyResult(Key(1, 0)));
    FinalHoldsDisputed(mid.desk, Key(1, 0), user);
    D.ActSane(mid.desk, D.ApplyResult(Key(1, 0), {user}));
  }

  /**
   * A run from a drawn tournament: a case naming only the final holds a prize at the
   * settlement, is cleared and carried out, and the prize is still held.
   */
  lemma {:induction false} ClearedCaseStillHolds(d: D.Desk, hash: (nat, UserId) -> nat, seed: nat, players: seq<UserId>,
      ids: Ids)
      returns (user: UserId, actions: seq<Action>, q: Office)
    requires P.Drawable(d, players) && |players| == 4
    requires forall u :: u in d.purse.book.balances ==> d.purse.book.balances[u] >= 0
    ensures Reaches(AtStart(d, hash, seed, players, map[]), ids, actions, q)
    ensures q.pending == {} && q.cases == map[0 := FinalOnly(user, ids, Cleared)] && user in Holds(q.desk.purse.awards)
  {
    var o := AtStart(d, hash, seed, players, map[]);
    D.StartIsSane(d, hash, seed, players);
    TwoTeams(o.desk.tree.rounds);
    user := D.InIdOrder(o.desk.tree.members[0]).first;
    var first, mid := FiledAndDecided(o.desk, ids, user);
    HeldForTheFinal(mid, ids, user);
    OneAction(o, ids, first, mid, ApplyResult(Key(1, 0)));
    actions, q := Clears(o, ids, first + [ApplyResult(Key(1, 0))], Act(mid, ids, ApplyResult(Key(1, 0))), user);
  }

  lemma {:induction false} Clears(o: Office, ids: Ids, before: seq<Action>, held: Office, user: UserId)
      returns (actions: seq<Action>, q: Office)
    requires Reaches(o, ids, before, held) && |held.desk.tree.members| == |held.desk.tree.teams|
    requires held.cases == map[0 := FinalOnly(user, ids, UnderReview)] && held.pending == {}
    ensures Reaches(o, ids, actions, q) && q == Office(map[0 := FinalOnly(user, ids, Cleared)], {}, held.desk)
  {
    ClearedInVain(held, user, ids);
    var resolve, reconcile := Resolve(0, Cleared, 0, ""), Reconcile(0);
    OneAction(o, ids, before, held, resolve);
    OneAction(o, ids, before + [resolve], Act(held, ids, resolve), reconcile);
    actions, q := before + [resolve] + [reconcile], Act(Act(held, ids, resolve), ids, reconcile);
  }

  lemma {:induction false} TwoTeams(rounds: nat)
    requires Pow2(rounds) == 2
    ensures rounds == 1
  {
    assert Pow2(0) == 1 && Pow2(1) == 2 * Pow2(0);
    Pow2Injective(rounds, 1);
  }

  /** Clearing twice is clearing once: an exact retry pays nothing a second time. */
  lemma {:induction false} ClearingAgainChangesNothing(o: Office, ids: Ids, id: nat)
    requires AllReasoned(o, ids) && id in o.cases && o.cases[id].status == Cleared
    ensures var q := Act(o, ids, Reconcile(id));
      |q.desk.tree.members| == |q.desk.tree.teams| && Act(q, ids, Reconcile(id)) == q
  {
    var c := o.cases[id];
    if c.tournament == Some(ids.tournament) && !StillOpen(o.cases, ids, c.user) {
      S.ReleaseSound(o.desk.purse, c.user, false);
      if S.Release(o.desk.purse, c.user, false).Ok? {
        var q := S.Release(o.desk.purse, c.user, false).value;
        NothingToRelease(q, c.user, 0);
      }
    }
  }

  lemma {:induction false} NothingToRelease(p: S.Purse, user: UserId, i: nat)
    requires i <= |p.awards| && !S.HeldFor(p.awards, user, i)
    ensures S.ReleaseFrom(p, user, i) == Ok(p)
    decreases |p.awards| - i
  {
    if i < |p.awards| { NothingToRelease(p, user, i + 1); }
  }

  // ---- the service -----------------------------------------------------------------------------

  datatype Answer =
    | NotFound
    | AlreadyResolved
    | ResolvedMeanwhile
    | Refused(why: D.Refusal)
    | Resolved(row: Case)

  class DisputesService {
    const ids: Ids
    const progression: T.Service
    var cases: map<nat, Case>

    constructor (ids: Ids, progression: T.Service)
      ensures this.ids == ids && this.progression == progression && cases == map[]
    {
      this.ids, this.progression, cases := ids, progression, map[];
    }

    /** `updateMany` with the open statuses in its condition; of two admins only the first counts. */
    method CloseCase(id: nat, verdict: CaseStatus, admin: nat, note: string) returns (count: nat)
      requires id in cases
      modifies this`cases
      ensures cases == Close(old(cases), id, verdict, admin, note)
      ensures count == if Open(old(cases)[id]) then 1 else 0
    {
      count := 0;
      if Open(cases[id]) {
        cases := cases[id := cases[id].(status := verdict, resolver := Some(admin), note := note)];
        count := 1;
      }
    }

    method ReconcileTournamentResolution(c: Case, verdict: CaseStatus) returns (refusal: Option<D.Refusal>)
      requires D.Sane(progression.Now())
      modifies progression
      ensures var outcome := CarryOut(cases, ids, c, verdict, old(progression.Now()));
        refusal == WhyRefused(outcome) && progression.Now() == Committed(old(progression.Now()), outcome)
    {
      refusal := None;
      if c.tournament != Some(ids.tournament) {
        return;
      }
      if verdict == Disqualified {
        refusal := progression.DisqualifyPlayer(c.user, HeldAtSettlement(cases, ids));
        return;
      }
      var failure := progression.ReleaseHeldAwards(c.user, StillOpen(cases, ids, c.user));
      if failure.Some? {
        refusal := Some(D.BySettlement(failure.value));
      }
    }

    /**
     * `seen` is what the first read returned; other requests may have moved the row since.
     * A closed case is carried out again only for the very same verdict, admin and note;
     * an open one is closed at most once, and the loser of a race carries on only if
     * the winner reached the same verdict.
     */
    method Resolve(seen: Option<Case>, id: nat, verdict: CaseStatus, admin: nat, note: string) returns (answer: Answer)
      requires seen.Some? ==> id in cases
      requires verdict in {Cleared, Disqualified} && D.Sane(progression.Now())
      modifies this`cases, progression
      ensures cases == if seen.Some? && Open(seen.value) then Close(old(cases), id, verdict, admin, note)
        else old(cases)
      ensures answer == NotFound <==> seen == None
      ensures answer == AlreadyResolved <==>
        seen.Some? && !Open(seen.value) &&
          !(seen.value.status == verdict && seen.value.resolver == Some(admin) && seen.value.note == note)
      ensures answer == ResolvedMeanwhile <==>
        seen.Some? && Open(seen.value) && !Open(old(cases)[id]) && old(cases)[id].status != verdict
      ensures answer.NotFound? || answer.AlreadyResolved? || answer.ResolvedMeanwhile? ==>
        progression.Now() == old(progression.Now())
      ensures answer.Refused? || answer.Resolved? ==>
        var row := if Open(seen.value) then cases[id] else seen.value;
        var outcome := CarryOut(cases, ids, row, verdict, old(progression.Now()));
        && progression.Now() == Committed(old(progression.Now()), outcome)
        && answer == (if outcome.Ok? then Resolved(row) else Refused(outcome.error))
        && row.status == verdict
    {
      if seen == None {
        return NotFound;
      }
      var row := seen.value;
      if !Open(row) {
        if !(row.status == verdict && row.resolver == Some(admin) && row.note == note) {
          return AlreadyResolved;
        }
      } else {
        var count := CloseCase(id, verdict, admin, note);
        row := cases[id];
        if count == 0 && row.status != verdict {
          return ResolvedMeanwhile;
        }
      }
      var refusal := ReconcileTournamentResolution(row, verdict);
      answer := if refusal.Some? then Refused(refusal.value) else Resolved(row);
    }
  }
}
