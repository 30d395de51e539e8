/** The tournament as a whole. */
module Desk {
  // Bracket, registrations, prize awards and ledger moving together, one
  // transaction at a time.
  import opened Common
  import opened Bracket
  import opened Draw
  import opened Sorting
  import S = Settlement
  import L = Ledger

  datatype Registration = Registration(team: Option<nat>, disqualified: bool, placement: Option<nat>)

  datatype Desk = Desk(
    tree: Tree,
    prizePool: nat,
    purse: S.Purse,
    registrations: map<UserId, Registration>,
    corrections: set<nat>)

  datatype Refusal = ByBracket(why: Failure) | BySettlement(reason: S.Failure) | ByValidation

  /** A team's players in user-id order, as the registrations query returns them. */
  function InIdOrder(p: Pair): S.Finalists {
    if p.first <= p.second then S.Finalists(p.first, p.second) else S.Finalists(p.second, p.first)
  }

  // ---- start ---------------------------------------------------------------------

  /** Writes the team of each of the first `n` teams on its two registrations. */
  function AssignTeams(registrations: map<UserId, Registration>, members: seq<Pair>,
      n: nat): (r: map<UserId, Registration>)
    requires n <= |members|
    requires forall t :: 0 <= t < |members| ==> members[t].first in registrations && members[t].second in registrations
    ensures r.Keys == registrations.Keys
  {
    if n == 0 then registrations
    else
      var done := AssignTeams(registrations, members, n - 1);
      var p := members[n - 1];
      var one := done[p.first := done[p.first].(team := Some(n - 1))];
      one[p.second := one[p.second].(team := Some(n - 1))]
  }

  lemma {:induction false} AssignedTeam(registrations: map<UserId, Registration>, members: seq<Pair>, n: nat, t: nat)
    requires n <= |members| && t < n && Partitioned(members)
    requires forall t :: 0 <= t < |members| ==> members[t].first in registrations && members[t].second in registrations
    ensures var r := AssignTeams(registrations, members, n);
      r[members[t].first].team == Some(t) && r[members[t].second].team == Some(t)
  {
    if t < n - 1 {
      AssignedTeam(registrations, members, n - 1, t);
      assert Apart(members[t], members[n - 1]);
    }
  }

  lemma {:induction false} AssignedOnly(registrations: map<UserId, Registration>, members: seq<Pair>, n: nat, u: UserId)
    requires n <= |members| && u in registrations && registrations[u].team == None
    requires forall t :: 0 <= t < |members| ==> members[t].first in registrations && members[t].second in registrations
    ensures var team := AssignTeams(registrations, members, n)[u].team;
      team.Some? ==> team.value < n && On(members[team.value], u)
  {
    if n > 0 { AssignedOnly(registrations, members, n - 1, u); }
  }

  lemma {:induction false} AssignedRoster(d: Desk, members: seq<Pair>, e: Desk)
    requires Partitioned(members)
    requires forall t :: 0 <= t < |members| ==>
      members[t].first in d.registrations && members[t].second in d.registrations
    requires forall u :: u in d.registrations ==> d.registrations[u].team == None
    requires d.registrations.Keys <= d.purse.book.balances.Keys
    requires e.registrations == AssignTeams(d.registrations, members, |members|) && e.tree.members == members &&
      e.purse == d.purse
    ensures Roster(e)
  {
    forall u | u in e.registrations && e.registrations[u].team.Some?
      ensures e.registrations[u].team.value < |members| && On(members[e.registrations[u].team.value], u)
    {
      AssignedOnly(d.registrations, members, |members|, u);
    }
    forall t | 0 <= t < |members|
      ensures members[t].first in e.registrations && e.registrations[members[t].first].team == Some(t)
      ensures members[t].second in e.registrations && e.registrations[members[t].second].team == Some(t)
    {
      AssignedTeam(d.registrations, members, |members|, t);
    }
  }

  lemma {:induction false} AtLeastFour(k: nat)
    requires Pow2(k) >= 4
    ensures k >= 2 && Pow2(k) == 2 * Pow2(k - 1) && Pow2(k - 1) >= 2
  {
    assert Pow2(0) == 1 && Pow2(1) == 2 * Pow2(0);
  }

  lemma {:induction false} FieldSize(n: nat)
    requires n >= 4 && IsPowerOfTwo(n)
    ensures n % 2 == 0 && n / 2 == Pow2(Log2(n / 2)) && Log2(n / 2) >= 1
  {
    PowersOfTwoExactly(n);
    HalfField(n);
  }

  lemma {:induction false} HalfField(n: nat)
    requires n >= 4 && PowerOfTwo(n)
    ensures n % 2 == 0 && n / 2 == Pow2(Log2(n / 2)) && Log2(n / 2) >= 1
  {
    var k: nat :| n == Pow2(k);
    AtLeastFour(k);
    Log2OfPower(k - 1);
  }

  /** The state `start` commits for a field it accepts. */
  function Started(d: Desk, hash: (nat, UserId) -> nat, seed: nat, players: seq<UserId>): Desk
    requires forall u :: u in players ==> u in d.registrations
  {
    var draw := StableDraw(hash, seed, players);
    assert forall i :: 0 <= i < |draw| ==> draw[i] in multiset(draw);
    var members := Teams(draw);
    d.(tree := Begin(Log2(|members|), members), registrations := AssignTeams(d.registrations, members, |members|))
  }

  /** A draw of at least four players, a power of two, starts a sane tournament with its teams as drawn. */
  lemma {:induction false} StartIsSane(d: Desk, hash: (nat, UserId) -> nat, seed: nat, players: seq<UserId>)
    requires |players| >= 4 && IsPowerOfTwo(|players|) && NoRepeats(players)
    requires forall u :: u in players ==> u in d.registrations
    requires forall u :: u in d.registrations ==> d.registrations[u].team == None
    requires S.Fresh(d.purse) && d.registrations.Keys <= d.purse.book.balances.Keys
    ensures var e := Started(d, hash, seed, players);
      && Sane(e)
      && Partitions(e.tree.members, players)
      && e.tree.status == InProgress && |e.tree.teams| == |players| / 2 == Pow2(e.tree.rounds)
  {
    var e := Started(d, hash, seed, players);
    var members := e.tree.members;
    FieldSize(|players|);
    EveryPlayerOnOneTeam(hash, seed, players);
    PartitionedMembers(members, players);
    DrawnSane(d, members, e);
  }

  lemma {:induction false} DrawnSane(d: Desk, members: seq<Pair>, e: Desk)
    requires Partitioned(members) && Log2(|members|) >= 1 && |members| == Pow2(Log2(|members|))
    requires forall t :: 0 <= t < |members| ==>
      members[t].first in d.registrations && members[t].second in d.registrations
    requires forall u :: u in d.registrations ==> d.registrations[u].team == None
    requires S.Fresh(d.purse) && d.registrations.Keys <= d.purse.book.balances.Keys
    requires e == d.(tree := Begin(Log2(|members|), members),
      registrations := AssignTeams(d.registrations, members, |members|))
    ensures Sane(e)
  {
    BeginHasShape(e.tree.rounds, members);
    AssignedRoster(d, members, e);
    NothingApplied(e.tree.rounds, members);
    FreshPurse(d.purse);
  }

  lemma {:induction false} PartitionedMembers(members: seq<Pair>, players: seq<UserId>)
    requires Partitions(members, players)
    ensures Partitioned(members)
  {
  }

  lemma {:induction false} FreshPurse(p: S.Purse)
    requires S.Fresh(p)
    ensures S.Sound(p) && p.version == 0
  {
    S.FreshIsSound(p);
  }

  lemma {:induction false} NothingApplied(rounds: nat, members: seq<Pair>)
    requires rounds >= 1 && |members| == Pow2(rounds)
    ensures Begin(rounds, members).status == InProgress && AppliedKeys(Begin(rounds, members)) == {}
  {
  }

  // ---- applyCompletedMatch with settlement -------------------------------------

  /** Copies every team placement to that team's registrations. */
  function CopyPlacements(registrations: map<UserId, Registration>, teams: seq<Team>): map<UserId, Registration> {
    map u | u in registrations ::
      var r := registrations[u];
      if r.team.Some? && r.team.value < |teams| && teams[r.team.value].placement.Some?
      then r.(placement := teams[r.team.value].placement) else r
  }

  function SettleFinal(d: Desk, champion: nat, runnerUp: nat, disputed: set<UserId>): Result<Desk, Refusal>
    requires champion < |d.tree.members| && runnerUp < |d.tree.members| == |d.tree.teams|
  {
    match S.Settle(d.purse, d.prizePool, InIdOrder(d.tree.members[champion]), InIdOrder(d.tree.members[runnerUp]),
                   d.tree.teams[runnerUp].status == TeamDisqualified, disputed)
    case Err(why) => Err(BySettlement(why))
    case Ok(p) => Ok(d.(purse := p, registrations := CopyPlacements(d.registrations, d.tree.teams)))
  }

  /** One result, with the settlement that the final triggers in the same transaction. */
  function ApplyMatch(d: Desk, key: Key, disputed: set<UserId>): Result<Desk, Refusal>
    requires |d.tree.members| == |d.tree.teams|
  {
    match Apply(d.tree, key)
    case Err(why) => Err(ByBracket(why))
    case Ok(next) =>
      if next.status == d.tree.status then Ok(d.(tree := next))
      else
        var o := OutcomeOf(d.tree.matches[key]).value;
        SettleFinal(d.(tree := next), o.winner, o.loser, disputed)
  }

  // ---- correctResults -------------------------------------------------------------

  function Submitted(champions: seq<UserId>, runnersUp: seq<UserId>): set<UserId> {
    (set u | u in champions) + (set u | u in runnersUp)
  }

  predicate AllDrawn(registrations: map<UserId, Registration>, users: set<UserId>) {
    forall u :: u in users ==> u in registrations && registrations[u].team.Some?
  }

  function TeamsOf(registrations: map<UserId, Registration>, ids: seq<UserId>): set<nat>
    requires AllDrawn(registrations, set u | u in ids)
  {
    set u | u in ids :: registrations[u].team.value
  }

  /** The validation a submitted correction has to pass. */
  predicate Accepts(registrations: map<UserId, Registration>, champions: seq<UserId>, runnersUp: seq<UserId>) {
    && |Submitted(champions, runnersUp)| == 4
    && AllDrawn(registrations, Submitted(champions, runnersUp))
    && |TeamsOf(registrations, champions)| == 1
    && |TeamsOf(registrations, runnersUp)| == 1
    && TeamsOf(registrations, champions) != TeamsOf(registrations, runnersUp)
  }

  lemma {:induction false} AcceptedListsAreNonEmpty(registrations: map<UserId, Registration>, champions: seq<UserId>,
      runnersUp: seq<UserId>)
    requires Accepts(registrations, champions, runnersUp)
    ensures champions != [] && runnersUp != []
  {
  }

  /** The one team of an accepted list. */
  function TheTeam(registrations: map<UserId, Registration>, ids: seq<UserId>): nat
    requires ids != [] && AllDrawn(registrations, set u | u in ids)
  {
    registrations[ids[0]].team.value
  }

  function Demote(teams: seq<Team>): seq<Team> {
    seq(|teams|, i requires 0 <= i < |teams| =>
      if teams[i].status in {Champion, RunnerUp} then teams[i].(status := Eliminated) else teams[i])
  }

  /** Former finalists become eliminated, then the corrected ones are crowned; nothing else is reset. */
  function Recrown(teams: seq<Team>, champion: nat, runnerUp: nat): seq<Team>
    requires champion < |teams| && runnerUp < |teams|
  {
    var demoted := Demote(teams);
    var crowned := demoted[champion := demoted[champion].(status := Champion, placement := Some(1))];
    crowned[runnerUp := crowned[runnerUp].(status := RunnerUp, placement := Some(2))]
  }

  function Replace(registrations: map<UserId, Registration>, team: nat, place: nat): map<UserId, Registration> {
    map u | u in registrations ::
      if registrations[u].team == Some(team) then registrations[u].(placement := Some(place)) else registrations[u]
  }

  function CorrectDesk(d: Desk, champions: seq<UserId>, runnersUp: seq<UserId>, request: nat,
      disputed: set<UserId>): Result<Desk, Refusal>
    requires |d.tree.members| == |d.tree.teams|
  {
    if request in d.corrections then Ok(d)
    else if d.tree.status != Completed || !Accepts(d.registrations, champions, runnersUp) then Err(ByValidation)
    else
      AcceptedListsAreNonEmpty(d.registrations, champions, runnersUp);
      var c := TheTeam(d.registrations, champions);
      var r := TheTeam(d.registrations, runnersUp);
      if c >= |d.tree.teams| || r >= |d.tree.teams| then Err(ByValidation)
      else
        match S.Correct(d.purse, d.prizePool, InIdOrder(d.tree.members[c]), InIdOrder(d.tree.members[r]), disputed)
        case Err(why) => Err(BySettlement(why))
        case Ok(p) => Ok(Corrected(d, c, r, p, request))
  }

  function Corrected(d: Desk, c: nat, r: nat, p: S.Purse, request: nat): Desk
    requires c < |d.tree.teams| && r < |d.tree.teams|
  {
    d.(purse := p,
       tree := d.tree.(teams := Recrown(d.tree.teams, c, r)),
       registrations := Replace(Replace(d.registrations, c, 1), r, 2),
       corrections := d.corrections + {request})
  }

  // ---- releaseHeldAwards, disqualifyPlayer --------------------------------------------

  function ReleaseDesk(d: Desk, user: UserId, stillOpen: bool): Result<Desk, Refusal> {
    match S.Release(d.purse, user, stillOpen)
    case Err(why) => Err(BySettlement(why))
    case Ok(p) => Ok(d.(purse := p))
  }

  /** The side opposite to the seat the player forfeits. */
  function ForfeitWinner(seats: seq<Seat>, user: UserId): (side: nat)
    ensures side < 2
  {
    if seats == [] then 0
    else if seats[0].user == user then (if seats[0].seat % 2 == 0 then 1 else 0)
    else ForfeitWinner(seats[1..], user)
  }

  /** The rows `disqualifyPlayer` writes before it looks for a running match. */
  function Expel(d: Desk, user: UserId): Desk
    requires user in d.registrations
  {
    var r := d.registrations[user];
    d.(registrations := d.registrations[user := r.(disqualified := true)],
       tree := if r.team.Some? then MarkDisqualified(d.tree, r.team.value) else d.tree,
       purse := S.Disqualify(d.purse, user))
  }

  ghost function DisqualifyDesk(d: Desk, user: UserId, disputed: set<UserId>): Result<Desk, Refusal>
    requires |d.tree.members| == |d.tree.teams|
  {
    if user !in d.registrations then Ok(d)
    else
      var e := Expel(d, user);
      if ActiveMatchesOf(e.tree, user) == {} then Ok(e)
      else
        var key :| key in ActiveMatchesOf(e.tree, user);
        ApplyMatch(e.(tree := Finish(e.tree, key, ForfeitWinner(e.tree.matches[key].seats, user), true)), key, disputed)
  }

  // ---- what always holds --------------------------------------------------------------

  /** Registrations and teams say the same about who plays with whom. */
  ghost predicate Roster(d: Desk) {
    && Partitioned(d.tree.members)
    && (forall u {:trigger u in d.registrations} :: u in d.registrations && d.registrations[u].team.Some? ==>
          d.registrations[u].team.value < |d.tree.members| && On(d.tree.members[d.registrations[u].team.value], u))
    && (forall t {:trigger d.tree.members[t]} :: 0 <= t < |d.tree.members| ==>
          && d.tree.members[t].first in d.registrations && d.registrations[d.tree.members[t].first].team == Some(t)
          && d.tree.members[t].second in d.registrations && d.registrations[d.tree.members[t].second].team == Some(t))
    && d.registrations.Keys <= d.purse.book.balances.Keys
  }

  ghost predicate Partitioned(members: seq<Pair>) {
    && (forall t :: 0 <= t < |members| ==> members[t].first != members[t].second)
    && (forall t, t' :: 0 <= t < t' < |members| ==> Apart(members[t], members[t']))
  }

  /** A started tournament between transactions. */
  ghost predicate Sane(d: Desk) {
    && Shape(d.tree)
    && S.Sound(d.purse)
    && Roster(d)
    && (d.tree.status == Completed <==> d.purse.version >= 1)
  }

  lemma {:induction false} FinalistsAreFour(d: Desk, one: nat, two: nat)
    requires Roster(d) && one < |d.tree.members| && two < |d.tree.members| && one != two
    ensures S.FourPlayers(d.purse, InIdOrder(d.tree.members[one]), InIdOrder(d.tree.members[two]))
  {
    var a, b := d.tree.members[one], d.tree.members[two];
    assert Apart(d.tree.members[one], d.tree.members[two]) || Apart(d.tree.members[two], d.tree.members[one]);
    assert a.first in d.registrations && b.first in d.registrations;
  }

  predicate AllPayable(p: S.Purse, f: S.Finalists, disputed: set<UserId>) {
    S.Payable(p, f.first, disputed) && S.Payable(p, f.second, disputed)
  }

  /** The finalists the settlement would credit can all receive money. */
  predicate FinalPayable(d: Desk, final: Match, disputed: set<UserId>) {
    var winner, loser := WinnerOf(final), LoserOf(final);
    && winner < |d.tree.members| && loser < |d.tree.members| && loser < |d.tree.teams|
    && AllPayable(d.purse, InIdOrder(d.tree.members[winner]), disputed)
    && (d.tree.teams[loser].status == TeamDisqualified ||
       AllPayable(d.purse, InIdOrder(d.tree.members[loser]), disputed))
  }

  /**
   * Every result is applied, in any order; the one exception is the final, which
   * is refused exactly when a finalist to be credited is overdrawn.
   */
  lemma {:induction false} ApplyMatchSane(d: Desk, key: Key, disputed: set<UserId>)
    requires Sane(d)
    ensures ApplyMatch(d, key, disputed).Ok? <==>
      (Applicable(d.tree, key) && key.round == d.tree.rounds ==> FinalPayable(d, d.tree.matches[key], disputed))
    ensures ApplyMatch(d, key, disputed).Ok? ==>
      Sane(ApplyMatch(d, key, disputed).value) && S.OutsideKept(d.purse, ApplyMatch(d, key, disputed).value.purse)
  {
    ApplyKeepsShape(d.tree, key);
    ApplyCountsOnce(d.tree, key);
    if Applicable(d.tree, key) {
      ApplicableMeansOpen(d.tree, key);
      OutcomeIsRight(d.tree, key);
      if key.round == d.tree.rounds {
        FinalSane(d, key, disputed);
      } else {
        assert Apply(d.tree, key).value.status == InProgress;
      }
    }
  }

  lemma {:induction false} FinalSane(d: Desk, key: Key, disputed: set<UserId>)
    requires Sane(d) && Applicable(d.tree, key) && key.round == d.tree.rounds
    ensures ApplyMatch(d, key, disputed).Ok? <==> FinalPayable(d, d.tree.matches[key], disputed)
    ensures ApplyMatch(d, key, disputed).Ok? ==>
      Sane(ApplyMatch(d, key, disputed).value) && S.OutsideKept(d.purse, ApplyMatch(d, key, disputed).value.purse)
  {
    FinalRows(d, key);
    var m := d.tree.matches[key];
    var e := d.(tree := Apply(d.tree, key).value);
    FinalPays(d, e, WinnerOf(m), LoserOf(m), disputed);
    assert ApplyMatch(d, key, disputed) == SettleFinal(e, WinnerOf(m), LoserOf(m), disputed);
    if ApplyMatch(d, key, disputed).Ok? {
      SaneAfter(d, ApplyMatch(d, key, disputed).value);
    }
  }

  /** The bracket rows once the final has been applied. */
  lemma {:induction false} FinalRows(d: Desk, key: Key)
    requires Sane(d) && Applicable(d.tree, key) && key.round == d.tree.rounds
    ensures Apply(d.tree, key).Ok?
    ensures var m := d.tree.matches[key]; var next := Apply(d.tree, key).value;
      && Shape(next) && next.status == Completed && d.tree.status == InProgress && next.members == d.tree.members
      && OutcomeOf(m) == Ok(Outcome(WinnerOf(m), LoserOf(m)))
      && WinnerOf(m) < |d.tree.members| && LoserOf(m) < |d.tree.members| && WinnerOf(m) != LoserOf(m)
      && (next.teams[LoserOf(m)].status == TeamDisqualified <==> d.tree.teams[LoserOf(m)].status == TeamDisqualified)
  {
    ApplyKeepsShape(d.tree, key);
    ApplicableMeansOpen(d.tree, key);
    OutcomeIsRight(d.tree, key);
    assert MatchOk(d.tree, key);
  }

  /** The money side of the final. */
  lemma {:induction false} FinalPays(d: Desk, e: Desk, champion: nat, runnerUp: nat, disputed: set<UserId>)
    requires S.Sound(d.purse) && d.purse.version == 0 && Roster(d)
    requires e == d.(tree := e.tree) && e.tree.members == d.tree.members &&
      |e.tree.teams| == |d.tree.teams| == |d.tree.members|
    requires champion < |d.tree.members| && runnerUp < |d.tree.members| && champion != runnerUp
    requires e.tree.teams[runnerUp].status == TeamDisqualified <==> d.tree.teams[runnerUp].status == TeamDisqualified
    ensures var outcome := SettleFinal(e, champion, runnerUp, disputed);
      && (outcome.Ok? <==>
            && AllPayable(d.purse, InIdOrder(d.tree.members[champion]), disputed)
            && (d.tree.teams[runnerUp].status == TeamDisqualified ||
               AllPayable(d.purse, InIdOrder(d.tree.members[runnerUp]), disputed)))
      && (outcome.Ok? ==>
            && outcome.value.tree == e.tree
            && outcome.value.registrations == CopyPlacements(d.registrations, e.tree.teams)
            && S.Sound(outcome.value.purse) && outcome.value.purse.version == 1
            && S.OutsideKept(d.purse, outcome.value.purse))
  {
    FinalistsAreFour(d, champion, runnerUp);
    S.PayFinalistsSound(d.purse, d.prizePool, InIdOrder(d.tree.members[champion]), InIdOrder(d.tree.members[runnerUp]),
                        e.tree.teams[runnerUp].status == TeamDisqualified, disputed);
  }

  lemma {:induction false} SaneAfter(d: Desk, e: Desk)
    requires Roster(d) && Shape(e.tree) && S.Sound(e.purse)
    requires e.tree.status == Completed <==> e.purse.version >= 1
    requires e.tree.members == d.tree.members && e.registrations.Keys == d.registrations.Keys
    requires forall u :: u in d.registrations ==> e.registrations[u].team == d.registrations[u].team
    requires e.purse.book.balances.Keys == d.purse.book.balances.Keys
    ensures Sane(e)
  {
    RosterSurvives(d, e);
  }

  /** Steps that keep teams, players and wallets in place keep the roster. */
  lemma {:induction false} RosterSurvives(d: Desk, e: Desk)
    requires Roster(d)
    requires e.tree.members == d.tree.members && e.registrations.Keys == d.registrations.Keys
    requires forall u :: u in d.registrations ==> e.registrations[u].team == d.registrations[u].team
    requires e.purse.book.balances.Keys == d.purse.book.balances.Keys
    ensures Roster(e)
  {
    forall t | 0 <= t < |e.tree.members|
      ensures e.tree.members[t].first in e.registrations && e.registrations[e.tree.members[t].first].team == Some(t)
      ensures e.tree.members[t].second in e.registrations && e.registrations[e.tree.members[t].second].team == Some(t)
    {
      assert d.tree.members[t] == e.tree.members[t];
    }
  }

  // ---- corrections ------------------------------------------------------------------------

  lemma {:induction false} ListInTeam(d: Desk, ids: seq<UserId>)
    requires Roster(d) && ids != [] && AllDrawn(d.registrations, set u | u in ids) &&
      |TeamsOf(d.registrations, ids)| == 1
    ensures var t := TheTeam(d.registrations, ids);
      && TeamsOf(d.registrations, ids) == {t} && t < |d.tree.members|
      && (set u | u in ids) <= {d.tree.members[t].first, d.tree.members[t].second}
  {
    var t := TheTeam(d.registrations, ids);
    assert t in TeamsOf(d.registrations, ids);
    Singleton(TeamsOf(d.registrations, ids), t);
    forall u | u in ids ensures u in {d.tree.members[t].first, d.tree.members[t].second} {
      assert TeamOf(d, u) in TeamsOf(d.registrations, ids);
      assert On(d.tree.members[t], u);
    }
    assert ids[0] in d.registrations;
  }

  function TeamOf(d: Desk, u: UserId): nat
    requires u in d.registrations && d.registrations[u].team.Some?
  {
    d.registrations[u].team.value
  }

  lemma {:induction false} Singleton<T>(s: set<T>, x: T)
    requires |s| == 1 && x in s
    ensures s == {x}
  {
    assert |s - {x}| == 0;
  }

  lemma {:induction false} PairSize<T>(a: set<T>, x: T, y: T)
    requires a <= {x, y}
    ensures |a| <= 2 && (|a| == 2 ==> a == {x, y})
  {
    SubsetSize(a, {x, y});
    if |a| == 2 && a != {x, y} {
      if x !in a { SubsetSize(a, {y}); } else { SubsetSize(a, {x}); }
    }
  }

  function Players(f: S.Finalists): set<UserId> {
    {f.first, f.second}
  }

  lemma {:induction false} SubmittedPlayers(champions: seq<UserId>, runnersUp: seq<UserId>, p: Pair, q: Pair)
    requires (set u | u in champions) == {p.first, p.second} && (set u | u in runnersUp) == {q.first, q.second}
    ensures Submitted(champions, runnersUp) == Players(InIdOrder(p)) + Players(InIdOrder(q))
  {
    assert Players(InIdOrder(p)) == {p.first, p.second} && Players(InIdOrder(q)) == {q.first, q.second};
  }

  lemma {:induction false} TwoFullPairs<T>(a: set<T>, b: set<T>, x: T, y: T, z: T, w: T)
    requires a <= {x, y} && b <= {z, w} && |a + b| == 4
    ensures a == {x, y} && b == {z, w} && a !! b
  {
    PairSize(a, x, y);
    PairSize(b, z, w);
    assert |a + b| == |a| + |b| - |a * b|;
  }

  /** Four distinct finalists that pass validation are two complete, different teams. */
  lemma {:induction false} AcceptedMeansTwoWholeTeams(d: Desk, champions: seq<UserId>, runnersUp: seq<UserId>)
    requires Roster(d) && Accepts(d.registrations, champions, runnersUp)
    ensures champions != [] && runnersUp != []
    ensures var c := TheTeam(d.registrations, champions); var r := TheTeam(d.registrations, runnersUp);
      && c < |d.tree.members| && r < |d.tree.members| && c != r
      && (set u | u in champions) == {d.tree.members[c].first, d.tree.members[c].second}
      && (set u | u in runnersUp) == {d.tree.members[r].first, d.tree.members[r].second}
  {
    AcceptedListsAreNonEmpty(d.registrations, champions, runnersUp);
    var a, b := set u | u in champions, set u | u in runnersUp;
    assert a <= Submitted(champions, runnersUp) && b <= Submitted(champions, runnersUp);
    ListInTeam(d, champions);
    ListInTeam(d, runnersUp);
    var c, r := TheTeam(d.registrations, champions), TheTeam(d.registrations, runnersUp);
    TwoFullPairs(a, b, d.tree.members[c].first, d.tree.members[c].second, d.tree.members[r].first,
      d.tree.members[r].second);
  }

  /** The coronation: exactly the corrected teams hold the titles, whatever was there before. */
  lemma {:induction false} RecrownCrowns(teams: seq<Team>, champion: nat, runnerUp: nat, i: nat)
    requires champion < |teams| && runnerUp < |teams| && champion != runnerUp && i < |teams|
    ensures var after := Recrown(teams, champion, runnerUp);
      && |after| == |teams|
      && (after[i].status == Champion <==> i == champion)
      && (after[i].status == RunnerUp <==> i == runnerUp)
      && after[champion].placement == Some(1) && after[runnerUp].placement == Some(2)
      && (i !in {champion, runnerUp} ==> after[i].placement == teams[i].placement)
  {
  }

  predicate NobodyOverdrawn(p: S.Purse, users: set<UserId>, disputed: set<UserId>) {
    forall u :: u in users && u !in disputed && u in p.book.balances ==> S.Outside(p, u) >= 0
  }

  /** A correction not seen before, on a completed tournament, that passes validation. */
  lemma {:induction false} FreshCorrectionSane(d: Desk, champions: seq<UserId>, runnersUp: seq<UserId>, request: nat,
      disputed: set<UserId>)
    requires Sane(d) && request !in d.corrections && d.tree.status == Completed &&
      Accepts(d.registrations, champions, runnersUp)
    ensures var outcome := CorrectDesk(d, champions, runnersUp, request, disputed);
      && (outcome.Ok? <==> NobodyOverdrawn(d.purse, Submitted(champions, runnersUp), disputed))
      && (outcome.Ok? ==> Sane(outcome.value) && S.Settled(d.purse, outcome.value.purse, d.prizePool, false))
  {
    AcceptedMeansTwoWholeTeams(d, champions, runnersUp);
    var c, r := TheTeam(d.registrations, champions), TheTeam(d.registrations, runnersUp);
    var one, two := InIdOrder(d.tree.members[c]), InIdOrder(d.tree.members[r]);
    var paid := S.Correct(d.purse, d.prizePool, one, two, disputed);
    CorrectionPays(d, c, r, disputed);
    SubmittedPlayers(champions, runnersUp, d.tree.members[c], d.tree.members[r]);
    AcceptedCorrection(d, champions, runnersUp, c, r, paid, request, disputed);
    if paid.Ok? { CorrectedSane(d, c, r, paid.value, request); }
  }

  lemma {:induction false} AcceptedCorrection(d: Desk, champions: seq<UserId>, runnersUp: seq<UserId>, c: nat, r: nat,
      paid: Result<S.Purse, S.Failure>, request: nat, disputed: set<UserId>)
    requires |d.tree.members| == |d.tree.teams| && request !in d.corrections && d.tree.status == Completed
    requires Accepts(d.registrations, champions, runnersUp) && champions != [] && runnersUp != []
    requires c == TheTeam(d.registrations, champions) < |d.tree.teams|
    requires r == TheTeam(d.registrations, runnersUp) < |d.tree.teams|
    requires paid
      == S.Correct(d.purse, d.prizePool, InIdOrder(d.tree.members[c]), InIdOrder(d.tree.members[r]), disputed)
    ensures CorrectDesk(d, champions, runnersUp, request, disputed)
         == if paid.Err? then Err(BySettlement(paid.error)) else Ok(Corrected(d, c, r, paid.value, request))
  {
  }

  lemma {:induction false} CorrectedSane(d: Desk, c: nat, r: nat, p: S.Purse, request: nat)
    requires Shape(d.tree) && Roster(d) && d.tree.status == Completed && c < |d.tree.teams| && r < |d.tree.teams|
    requires S.Sound(p) && p.version >= 1 && p.book.balances.Keys == d.purse.book.balances.Keys
    ensures Sane(Corrected(d, c, r, p, request))
  {
    var e := Corrected(d, c, r, p, request);
    ShapeIgnoresTeamRows(d.tree, e.tree);
    assert e.registrations.Keys == d.registrations.Keys;
    SaneAfter(d, e);
  }

  lemma {:induction false} CorrectionPays(d: Desk, c: nat, r: nat, disputed: set<UserId>)
    requires S.Sound(d.purse) && Roster(d) && c < |d.tree.members| && r < |d.tree.members| && c != r
    ensures var one := InIdOrder(d.tree.members[c]); var two := InIdOrder(d.tree.members[r]);
      var paid := S.Correct(d.purse, d.prizePool, one, two, disputed);
      && (paid.Ok? <==> NobodyOverdrawn(d.purse, Players(one) + Players(two), disputed))
      && (paid.Ok? ==> S.Settled(d.purse, paid.value, d.prizePool, false))
  {
    FinalistsAreFour(d, c, r);
    S.CorrectSound(d.purse, d.prizePool, InIdOrder(d.tree.members[c]), InIdOrder(d.tree.members[r]), disputed);
  }

  /**
   * A repeated request changes nothing; a new one goes through exactly when the
   * tournament is completed, the four finalists are two whole teams, and none of
   * them would be overdrawn without the prizes being taken back.
   */
  lemma {:induction false} CorrectionGoesThrough(d: Desk, champions: seq<UserId>, runnersUp: seq<UserId>, request: nat,
      disputed: set<UserId>)
    requires Sane(d)
    ensures var outcome := CorrectDesk(d, champions, runnersUp, request, disputed);
      && (request in d.corrections ==> outcome == Ok(d))
      && (request !in d.corrections ==>
            (outcome.Ok? <==>
              && d.tree.status == Completed
              && Accepts(d.registrations, champions, runnersUp)
              && NobodyOverdrawn(d.purse, Submitted(champions, runnersUp), disputed)))
  {
    if request !in d.corrections && d.tree.status == Completed && Accepts(d.registrations, champions, runnersUp) {
      FreshCorrectionSane(d, champions, runnersUp, request, disputed);
    }
  }

  lemma {:induction false} CorrectSane(d: Desk, champions: seq<UserId>, runnersUp: seq<UserId>, request: nat,
      disputed: set<UserId>)
    requires Sane(d) && CorrectDesk(d, champions, runnersUp, request, disputed).Ok?
    ensures Sane(CorrectDesk(d, champions, runnersUp, request, disputed).value)
  {
    if request !in d.corrections && d.tree.status == Completed && Accepts(d.registrations, champions, runnersUp) {
      FreshCorrectionSane(d, champions, runnersUp, request, disputed);
    }
  }

  lemma {:induction false} ShapeIgnoresTeamRows(t: Tree, u: Tree)
    requires Shape(t) && u == t.(teams := u.teams) && |u.teams| == |t.teams|
    ensures Shape(u)
  {
    forall k | k in u.matches ensures MatchOk(u, k) { assert MatchOk(t, k); }
    forall k: Key | InTree(u.rounds, k) && k.round > 1 ensures Linked(u, k) { assert Linked(t, k); }
  }

  lemma {:induction false} ReleaseSane(d: Desk, user: UserId, stillOpen: bool)
    requires Sane(d)
    ensures ReleaseDesk(d, user, stillOpen).Ok? ==> Sane(ReleaseDesk(d, user, stillOpen).value)
  {
    S.ReleaseSound(d.purse, user, stillOpen);
    if ReleaseDesk(d, user, stillOpen).Ok? {
      RosterSurvives(d, ReleaseDesk(d, user, stillOpen).value);
    }
  }

  // ---- disqualification ---------------------------------------------------------------------

  lemma {:induction false} SeatedPlays(d: Desk, user: UserId, key: Key) returns (team: nat)
    requires Sane(d) && key in d.tree.matches && Seated(d.tree.matches[key], user)
    ensures team < |d.tree.members| && PlaysIn(d.tree, team, key) && On(d.tree.members[team], user)
  {
    assert MatchOk(d.tree, key);
    var m := d.tree.matches[key];
    var i :| 0 <= i < |m.seats| && m.seats[i].user == user;
    team := m.seats[i].team;
  }

  /** A player sits in at most one unfinished tournament match, so "the first one found" is the only one. */
  lemma {:induction false} OneActiveMatch(d: Desk, user: UserId, a: Key, b: Key)
    requires Sane(d) && a in ActiveMatchesOf(d.tree, user) && b in ActiveMatchesOf(d.tree, user)
    ensures a == b
  {
    var s := SeatedPlays(d, user, a);
    var t := SeatedPlays(d, user, b);
    assert MatchOk(d.tree, a) && MatchOk(d.tree, b);
    assert s == t by {
      assert s < t ==> Apart(d.tree.members[s], d.tree.members[t]);
      assert t < s ==> Apart(d.tree.members[t], d.tree.members[s]);
    }
    OneOpenMatchPerTeam(d.tree, s, a, b);
  }

  lemma {:induction false} ExpelSane(d: Desk, user: UserId)
    requires Sane(d) && user in d.registrations
    ensures Sane(Expel(d, user)) && Expel(d, user).tree.matches == d.tree.matches
  {
    var e := Expel(d, user);
    if d.registrations[user].team.Some? {
      DisqualifyKeepsShape(d.tree, d.registrations[user].team.value);
    }
    S.DisqualifySound(d.purse, user);
    SaneAfter(d, e);
  }

  /** The state in which a disqualification applies the forfeit, if the player is in a running match. */
  function AfterForfeit(d: Desk, user: UserId, key: Key): Desk
    requires user in d.registrations && key in d.tree.matches
  {
    var e := Expel(d, user);
    e.(tree := Finish(e.tree, key, ForfeitWinner(d.tree.matches[key].seats, user), true))
  }

  lemma {:induction false} ForfeitedSane(d: Desk, user: UserId, key: Key)
    requires Sane(d) && user in d.registrations && key in d.tree.matches
    ensures Sane(AfterForfeit(d, user, key))
  {
    ExpelSane(d, user);
    var e := Expel(d, user);
    FinishKeepsShape(e.tree, key, ForfeitWinner(d.tree.matches[key].seats, user), true);
    SaneAfter(e, AfterForfeit(d, user, key));
  }

  lemma {:induction false} ForfeitGoesToOthers(one: nat, p: Pair, two: nat, q: Pair, user: UserId)
    ensures user in {p.first, p.second} && user !in {q.first, q.second} ==>
      ForfeitWinner(SeatsFor(one, p, two, q), user) == 1
    ensures user in {q.first, q.second} && user !in {p.first, p.second} ==>
      ForfeitWinner(SeatsFor(one, p, two, q), user) == 0
  {
    var seats := SeatsFor(one, p, two, q);
    assert seats[1..][1..] == seats[2..] && seats[2..][1..] == seats[3..];
    assert ForfeitWinner(seats[3..], user) == if seats[3].user == user then 0 else ForfeitWinner(seats[3..][1..], user);
    assert ForfeitWinner(seats[2..], user) == if seats[2].user == user then 1 else ForfeitWinner(seats[3..], user);
    assert ForfeitWinner(seats[1..], user) == if seats[1].user == user then 0 else ForfeitWinner(seats[2..], user);
  }

  /** The player's team is the one that loses the forfeited match. */
  lemma {:induction false} ForfeitLoses(d: Desk, user: UserId, key: Key) returns (team: nat)
    requires Sane(d) && user in d.registrations && key in ActiveMatchesOf(d.tree, user)
    ensures team < |d.tree.teams| && d.registrations[user].team == Some(team)
    ensures key in AfterForfeit(d, user, key).tree.matches &&
      LoserOf(AfterForfeit(d, user, key).tree.matches[key]) == team
    ensures Applicable(AfterForfeit(d, user, key).tree, key)
  {
    assert MatchOk(d.tree, key);
    team := SeatedPlays(d, user, key);
    assert d.tree.members[team].first in d.registrations;
    var m := d.tree.matches[key];
    var p, q := d.tree.members[One(m)], d.tree.members[Two(m)];
    assert Apart(p, q) by {
      assert One(m) < Two(m) ==> Apart(d.tree.members[One(m)], d.tree.members[Two(m)]);
      assert Two(m) < One(m) ==> Apart(d.tree.members[Two(m)], d.tree.members[One(m)]);
    }
    ForfeitGoesToOthers(One(m), p, Two(m), q, user);
    ExpelSane(d, user);
  }

  /** Disqualification forfeits the running match of the player, if any, and applies that result at once. */
  lemma {:induction false} DisqualifySane(d: Desk, user: UserId, disputed: set<UserId>)
    requires Sane(d)
    ensures DisqualifyDesk(d, user, disputed).Ok? ==> Sane(DisqualifyDesk(d, user, disputed).value)
    ensures user in d.registrations && ActiveMatchesOf(d.tree, user) == {} ==>
      DisqualifyDesk(d, user, disputed) == Ok(Expel(d, user))
    ensures forall key :: user in d.registrations && key in ActiveMatchesOf(d.tree, user) ==>
      DisqualifyDesk(d, user, disputed) == ApplyMatch(AfterForfeit(d, user, key), key, disputed)
  {
    if user in d.registrations {
      ExpelSane(d, user);
      var e := Expel(d, user);
      assert ActiveMatchesOf(e.tree, user) == ActiveMatchesOf(d.tree, user);
      forall a, b | a in ActiveMatchesOf(e.tree, user) && b in ActiveMatchesOf(e.tree, user) ensures a == b {
        OneActiveMatch(d, user, a, b);
      }
      if ActiveMatchesOf(d.tree, user) != {} {
        var key :| key in ActiveMatchesOf(d.tree, user);
        ForfeitedSane(d, user, key);
        ApplyMatchSane(AfterForfeit(d, user, key), key, disputed);
        assert DisqualifyDesk(d, user, disputed) == ApplyMatch(AfterForfeit(d, user, key), key, disputed);
      }
    }
  }

  // ---- every run ---------------------------------------------------------------------------------

  datatype Action =
    | EndMatch(key: Key, side: nat, forfeited: bool)
    | ApplyResult(key: Key, disputed: set<UserId>)
    | CorrectResults(champions: seq<UserId>, runnersUp: seq<UserId>, request: nat, disputed: set<UserId>)
    | ReleaseHeld(user: UserId, stillOpen: bool)
    | DisqualifyPlayer(user: UserId, disputed: set<UserId>)
    | OtherMoney(entry: L.Entry<S.Ref>)

  ghost function Act(d: Desk, a: Action): Desk
    requires |d.tree.members| == |d.tree.teams|
  {
    match a
    case EndMatch(key, side, forfeited) => d.(tree := Finish(d.tree, key, side, forfeited))
    case ApplyResult(key, disputed) => Committed(d, ApplyMatch(d, key, disputed))
    case CorrectResults(champions, runnersUp, request, disputed) =>
      Committed(d, CorrectDesk(d, champions, runnersUp, request, disputed))
    case ReleaseHeld(user, stillOpen) => Committed(d, ReleaseDesk(d, user, stillOpen))
    case DisqualifyPlayer(user, disputed) => Committed(d, DisqualifyDesk(d, user, disputed))
    case OtherMoney(entry) => d.(purse := S.Move(d.purse, entry))
  }

  lemma {:induction false} ActSane(d: Desk, a: Action)
    requires Sane(d)
    ensures Sane(Act(d, a))
  {
    match a {
      case EndMatch(key, side, forfeited) =>
        FinishKeepsShape(d.tree, key, side, forfeited);
        SaneAfter(d, Act(d, a));
      case ApplyResult(key, disputed) => ApplyMatchSane(d, key, disputed);
      case CorrectResults(champions, runnersUp, request, disputed) =>
        if CorrectDesk(d, champions, runnersUp, request, disputed).Ok? {
          CorrectSane(d, champions, runnersUp, request, disputed);
        }
      case ReleaseHeld(user, stillOpen) => ReleaseSane(d, user, stillOpen);
      case DisqualifyPlayer(user, disputed) => DisqualifySane(d, user, disputed);
      case OtherMoney(entry) =>
        S.MoveSound(d.purse, entry);
        S.MoveKeepsConsistent(d.purse, entry);
        SaneAfter(d, Act(d, a));
    }
  }

  ghost predicate Reaches(d: Desk, actions: seq<Action>, e: Desk)
    decreases |actions|
  {
    if actions == [] then d == e
    else |d.tree.members| == |d.tree.teams| && Reaches(Act(d, actions[0]), actions[1..], e)
  }

  /**
   * The bracket and the money stay right together over every run of match ends,
   * results, disqualifications, corrections, releases and unrelated payments.
   */
  lemma {:induction false} EveryRunIsSane(d: Desk, actions: seq<Action>, e: Desk)
    requires Sane(d) && Reaches(d, actions, e)
    ensures Sane(e)
    ensures e.tree.status == InProgress <==> exists key :: key in e.tree.matches && !e.tree.matches[key].applied
    ensures e.tree.status == Completed <==> |AppliedKeys(e.tree)| == |e.tree.teams| - 1
    ensures e.tree.status == InProgress ==> e.purse.awards == []
    ensures S.Live(e.purse.awards) <= e.purse.pool
    ensures forall u: UserId :: S.Net(e.purse.book.rows, u) == S.CreditedTo(e.purse.awards, u)
    decreases |actions|
  {
    if actions != [] {
      ActSane(d, actions[0]);
      EveryRunIsSane(Act(d, actions[0]), actions[1..], e);
    }
    NeverStuck(e.tree);
    CompleteExactlyAtTeamsMinusOne(e.tree);
  }
}
