/** Who gets which prize. */
module PrizeMoney {
  // The money side of results, corrections and disqualifications, told by the teams of
  // the bracket: 70% of the pool to the winners of the final, the rest to its losers.
  import opened Common
  import opened Bracket
  import opened Desk
  import opened Draw
  import opened Standings
  import O = Overdrawn
  import S = Settlement

  // ---- what a place is worth ---------------------------------------------------------------

  /** Half of the team's part rounded down for the lower user id, the rest for the other. */
  function PlayerPart(p: Pair, part: nat, user: UserId): nat {
    if user !in {p.first, p.second} then 0
    else if user <= p.first && user <= p.second then part / 2
    else part - part / 2
  }

  /** Seventy per cent rounded down for the winners, the rest for the losers unless they are skipped. */
  function Due(pool: nat, winners: Pair, losers: Pair, skip: bool, user: UserId): nat {
    PlayerPart(winners, 7 * pool / 10, user) + if skip then 0 else PlayerPart(losers, pool - 7 * pool / 10, user)
  }

  /** What is credited at once: nothing to a player in dispute. */
  function Credit(pool: nat, winners: Pair, losers: Pair, skip: bool, disputed: set<UserId>, user: UserId): nat {
    if user in disputed then 0 else Due(pool, winners, losers, skip, user)
  }

  /** Every wallet has moved by the player's credit. */
  ghost predicate PaidOut(before: map<UserId, int>, after: map<UserId, int>, pool: nat, winners: Pair, losers: Pair,
      skip: bool, disputed: set<UserId>) {
    after.Keys == before.Keys &&
      forall u :: u in before ==> after[u] == before[u] + Credit(pool, winners, losers, skip, disputed, u)
  }

  /** The wallets without this tournament's prizes. */
  ghost function WithoutPrizes(p: S.Purse): map<UserId, int> {
    map u | u in p.book.balances :: S.Outside(p, u)
  }

  /** Players of the two teams that are paid or held. */
  function Paid(winners: Pair, losers: Pair, skip: bool): set<UserId> {
    {winners.first, winners.second} + if skip then {} else {losers.first, losers.second}
  }

  ghost predicate FourPeople(winners: Pair, losers: Pair) {
    && winners.first != winners.second && losers.first != losers.second
    && {winners.first, winners.second} !! {losers.first, losers.second}
  }

  /** One award for each player paid: the own share, held exactly while in dispute. */
  ghost predicate AwardsAre(awards: seq<S.Award>, version: nat, pool: nat, winners: Pair, losers: Pair, skip: bool,
      disputed: set<UserId>) {
    && (forall i :: 0 <= i < |awards| ==>
          && awards[i].user in Paid(winners, losers, skip) && awards[i].version == version
          && awards[i].amount == Due(pool, winners, losers, skip, awards[i].user)
          && awards[i].placement == (if awards[i].user in {winners.first, winners.second} then 1 else 2)
          && awards[i].status == (if awards[i].user in disputed then S.Held else S.Credited))
    && (forall u :: u in Paid(winners, losers, skip) ==> exists i :: 0 <= i < |awards| && awards[i].user == u)
    && (forall i, j :: 0 <= i < j < |awards| ==> awards[i].user != awards[j].user)
  }

  // ---- the awards of a settlement --------------------------------------------------------------

  predicate IsAward(a: S.Award, user: UserId, placement: nat, amount: nat, version: nat, disputed: bool) {
    a.user == user && a.placement == placement && a.amount == amount && a.version == version &&
      a.status == if disputed then S.Held else S.Credited
  }

  lemma {:induction false} TeamAppends(p: S.Purse, team: S.Finalists, placement: nat, teamPool: nat, version: nat,
      disputed: set<UserId>) returns (a: S.Award, b: S.Award)
    requires S.PayTeam(p, team, placement, teamPool, version, disputed).Ok?
    ensures S.PayTeam(p, team, placement, teamPool, version, disputed).value.awards == p.awards + [a, b]
    ensures IsAward(a, team.first, placement, S.FirstShare(teamPool), version, team.first in disputed)
    ensures IsAward(b, team.second, placement, S.SecondShare(teamPool), version, team.second in disputed)
  {
    var q := S.Pay(p, team.first, placement, S.FirstShare(teamPool), version, team.first in disputed).value;
    var r := S.PayTeam(p, team, placement, teamPool, version, disputed).value;
    a, b := q.awards[|p.awards|], r.awards[|q.awards|];
    assert p.awards + [a] + [b] == p.awards + [a, b];
  }

  lemma {:induction false} FinalistsAppend(p: S.Purse, pool: nat, one: S.Finalists, two: S.Finalists, skip: bool,
      disputed: set<UserId>) returns (added: seq<S.Award>)
    requires S.PayFinalists(p, pool, one, two, skip, disputed).Ok?
    ensures S.PayFinalists(p, pool, one, two, skip, disputed).value.awards == p.awards + added
    ensures |added| == if skip then 2 else 4
    ensures IsAward(added[0], one.first, 1, S.FirstShare(S.ChampionPool(pool)), p.version + 1, one.first in disputed)
    ensures IsAward(added[1], one.second, 1, S.SecondShare(S.ChampionPool(pool)), p.version + 1, one.second in disputed)
    ensures !skip ==> var rest := pool - S.ChampionPool(pool);
      && IsAward(added[2], two.first, 2, S.FirstShare(rest), p.version + 1, two.first in disputed)
      && IsAward(added[3], two.second, 2, S.SecondShare(rest), p.version + 1, two.second in disputed)
  {
    var first := S.PayTeam(p, one, 1, S.ChampionPool(pool), p.version + 1, disputed);
    var both := if first.Err? || skip then first
                else S.PayTeam(first.value, two, 2, pool - S.ChampionPool(pool), p.version + 1, disputed);
    S.PayFinalistsIs(p, pool, one, two, skip, disputed, first, both);
    added := TeamsAppend(p, pool, one, two, skip, disputed, first, both);
  }

  lemma {:induction false} TeamsAppend(p: S.Purse, pool: nat, one: S.Finalists, two: S.Finalists, skip: bool,
      disputed: set<UserId>, first: Result<S.Purse, S.Failure>, both: Result<S.Purse, S.Failure>)
      returns (added: seq<S.Award>)
    requires first == S.PayTeam(p, one, 1, S.ChampionPool(pool), p.version + 1, disputed) && first.Ok? && both.Ok?
    requires both == if skip then first
      else S.PayTeam(first.value, two, 2, pool - S.ChampionPool(pool), p.version + 1, disputed)
    ensures both.value.awards == p.awards + added && |added| == if skip then 2 else 4
    ensures IsAward(added[0], one.first, 1, S.FirstShare(S.ChampionPool(pool)), p.version + 1, one.first in disputed)
    ensures IsAward(added[1], one.second, 1, S.SecondShare(S.ChampionPool(pool)), p.version + 1, one.second in disputed)
    ensures !skip ==> var rest := pool - S.ChampionPool(pool);
      && IsAward(added[2], two.first, 2, S.FirstShare(rest), p.version + 1, two.first in disputed)
      && IsAward(added[3], two.second, 2, S.SecondShare(rest), p.version + 1, two.second in disputed)
  {
    var a, b := TeamAppends(p, one, 1, S.ChampionPool(pool), p.version + 1, disputed);
    added := [a, b];
    if !skip {
      var c, e := TeamAppends(first.value, two, 2, pool - S.ChampionPool(pool), p.version + 1, disputed);
      added := [a, b, c, e];
      assert p.awards + [a, b] + [c, e] == p.awards + added;
    }
  }

  /** The shares are those of the teams' players in id order. */
  lemma {:induction false} SharesAreDue(pool: nat, winners: Pair, losers: Pair, skip: bool)
    requires FourPeople(winners, losers)
    ensures var one, two := InIdOrder(winners), InIdOrder(losers); var rest := pool - S.ChampionPool(pool);
      && Due(pool, winners, losers, skip, one.first) == S.FirstShare(S.ChampionPool(pool))
      && Due(pool, winners, losers, skip, one.second) == S.SecondShare(S.ChampionPool(pool))
      && (!skip ==> Due(pool, winners, losers, skip, two.first) == S.FirstShare(rest))
      && (!skip ==> Due(pool, winners, losers, skip, two.second) == S.SecondShare(rest))
  {
    assert S.ChampionPool(pool) == 7 * pool / 10;
  }

  lemma {:induction false} ShareIsDue(pool: nat, winners: Pair, losers: Pair, skip: bool, disputed: set<UserId>,
      user: UserId)
    requires FourPeople(winners, losers)
    ensures O.Share(pool, InIdOrder(winners), InIdOrder(losers), skip, disputed, user)
         == Credit(pool, winners, losers, skip, disputed, user)
  {
    SharesAreDue(pool, winners, losers, skip);
  }

  lemma {:induction false} SettlementAwards(p: S.Purse, pool: nat, winners: Pair, losers: Pair, skip: bool,
      disputed: set<UserId>)
    requires FourPeople(winners, losers)
    requires S.PayFinalists(p, pool, InIdOrder(winners), InIdOrder(losers), skip, disputed).Ok?
    ensures var awards := S.PayFinalists(p, pool, InIdOrder(winners), InIdOrder(losers), skip, disputed).value.awards;
      && |awards| >= |p.awards| && awards[..|p.awards|] == p.awards
      && AwardsAre(awards[|p.awards|..], p.version + 1, pool, winners, losers, skip, disputed)
  {
    var one, two := InIdOrder(winners), InIdOrder(losers);
    var added := FinalistsAppend(p, pool, one, two, skip, disputed);
    assert (p.awards + added)[|p.awards|..] == added;
    AddedAre(added, p.version + 1, pool, winners, losers, skip, disputed);
  }

  lemma {:induction false} AmountsAreDue(added: seq<S.Award>, version: nat, pool: nat, winners: Pair, losers: Pair,
      skip: bool, disputed: set<UserId>)
    requires FourPeople(winners, losers) && |added| == if skip then 2 else 4
    requires var one, top := InIdOrder(winners), S.ChampionPool(pool);
      && IsAward(added[0], one.first, 1, S.FirstShare(top), version, one.first in disputed)
      && IsAward(added[1], one.second, 1, S.SecondShare(top), version, one.second in disputed)
    requires !skip ==> var two, rest := InIdOrder(losers), pool - S.ChampionPool(pool);
      && IsAward(added[2], two.first, 2, S.FirstShare(rest), version, two.first in disputed)
      && IsAward(added[3], two.second, 2, S.SecondShare(rest), version, two.second in disputed)
    ensures forall i :: 0 <= i < |added| ==> added[i].amount == Due(pool, winners, losers, skip, added[i].user)
  {
    SharesAreDue(pool, winners, losers, skip);
  }

  lemma {:induction false} AddedAre(added: seq<S.Award>, version: nat, pool: nat, winners: Pair, losers: Pair,
      skip: bool, disputed: set<UserId>)
    requires FourPeople(winners, losers) && |added| == if skip then 2 else 4
    requires var one, top := InIdOrder(winners), S.ChampionPool(pool);
      && IsAward(added[0], one.first, 1, S.FirstShare(top), version, one.first in disputed)
      && IsAward(added[1], one.second, 1, S.SecondShare(top), version, one.second in disputed)
    requires !skip ==> var two, rest := InIdOrder(losers), pool - S.ChampionPool(pool);
      && IsAward(added[2], two.first, 2, S.FirstShare(rest), version, two.first in disputed)
      && IsAward(added[3], two.second, 2, S.SecondShare(rest), version, two.second in disputed)
    ensures AwardsAre(added, version, pool, winners, losers, skip, disputed)
  {
    AmountsAreDue(added, version, pool, winners, losers, skip, disputed);
    RowsFit(added, version, pool, winners, losers, skip, disputed);
    EveryoneIsPaid(added, winners, losers, skip);
  }

  lemma {:induction false} RowsFit(added: seq<S.Award>, version: nat, pool: nat, winners: Pair, losers: Pair,
      skip: bool, disputed: set<UserId>)
    requires FourPeople(winners, losers) && |added| == if skip then 2 else 4
    requires var one, top := InIdOrder(winners), S.ChampionPool(pool);
      && IsAward(added[0], one.first, 1, S.FirstShare(top), version, one.first in disputed)
      && IsAward(added[1], one.second, 1, S.SecondShare(top), version, one.second in disputed)
    requires !skip ==> var two, rest := InIdOrder(losers), pool - S.ChampionPool(pool);
      && IsAward(added[2], two.first, 2, S.FirstShare(rest), version, two.first in disputed)
      && IsAward(added[3], two.second, 2, S.SecondShare(rest), version, two.second in disputed)
    ensures forall i :: 0 <= i < |added| ==>
      && added[i].user in Paid(winners, losers, skip) && added[i].version == version
      && added[i].placement == (if added[i].user in {winners.first, winners.second} then 1 else 2)
      && added[i].status == (if added[i].user in disputed then S.Held else S.Credited)
  {
  }

  lemma {:induction false} EveryoneIsPaid(added: seq<S.Award>, winners: Pair, losers: Pair, skip: bool)
    requires FourPeople(winners, losers) && |added| == if skip then 2 else 4
    requires added[0].user == InIdOrder(winners).first && added[1].user == InIdOrder(winners).second
    requires !skip ==> added[2].user == InIdOrder(losers).first && added[3].user == InIdOrder(losers).second
    ensures forall u :: u in Paid(winners, losers, skip) ==> exists i :: 0 <= i < |added| && added[i].user == u
    ensures forall i, j :: 0 <= i < j < |added| ==> added[i].user != added[j].user
  {
    forall u | u in Paid(winners, losers, skip) ensures exists i :: 0 <= i < |added| && added[i].user == u {
      var i := if u == added[0].user then 0 else if u == added[1].user then 1 else if u == added[2].user then 2 else 3;
      assert added[i].user == u;
    }
  }

  lemma {:induction false} TeamsAreFour(d: Desk, one: nat, two: nat)
    requires Roster(d) && one < |d.tree.members| && two < |d.tree.members| && one != two
    ensures FourPeople(d.tree.members[one], d.tree.members[two])
    ensures S.FourPlayers(d.purse, InIdOrder(d.tree.members[one]), InIdOrder(d.tree.members[two]))
  {
    FinalistsAreFour(d, one, two);
    assert one < two ==> Apart(d.tree.members[one], d.tree.members[two]);
    assert two < one ==> Apart(d.tree.members[two], d.tree.members[one]);
  }

  // ---- results -------------------------------------------------------------------------------------

  /** Only placements move on registrations, and each becomes that of the team if it has one. */
  ghost predicate OnlyPlaced(d: Desk, e: Desk) {
    && e.registrations.Keys == d.registrations.Keys
    && forall u :: u in d.registrations ==>
         && e.registrations[u].team == d.registrations[u].team
         && e.registrations[u].disqualified == d.registrations[u].disqualified
         && (d.registrations[u].team.Some? && d.registrations[u].team.value < |e.tree.teams| &&
             e.tree.teams[d.registrations[u].team.value].placement.Some? ==>
               e.registrations[u].placement == e.tree.teams[d.registrations[u].team.value].placement)
  }

  /**
   * The result of the final pays: every wallet moves by what the player's place in the
   * final is worth, 70% for the winners, and every finalist in dispute has exactly that
   * share held instead; a disqualified loser gets nothing.
   */
  lemma {:induction false} FinalPaysItsWinners(d: Desk, key: Key, disputed: set<UserId>)
    requires Sane(d) && Applicable(d.tree, key) && key.round == d.tree.rounds && ApplyMatch(d, key, disputed).Ok?
    ensures WinnerOf(d.tree.matches[key]) < |d.tree.members| && LoserOf(d.tree.matches[key]) < |d.tree.teams|
    ensures var e := ApplyMatch(d, key, disputed).value; var m := d.tree.matches[key];
      var winners, losers := d.tree.members[WinnerOf(m)], d.tree.members[LoserOf(m)];
      var skip := d.tree.teams[LoserOf(m)].status == TeamDisqualified;
      && PaidOut(d.purse.book.balances, e.purse.book.balances, d.prizePool, winners, losers, skip, disputed)
      && AwardsAre(e.purse.awards, 1, d.prizePool, winners, losers, skip, disputed) && e.purse.version == 1
  {
    FinalRows(d, key);
    var m := d.tree.matches[key];
    TeamsAreFour(d, WinnerOf(m), LoserOf(m));
    FinalIsSettled(d, key, disputed);
    NoAwardsYet(d);
    SettlementPays(d.purse, d.prizePool, d.tree.members[WinnerOf(m)], d.tree.members[LoserOf(m)],
      d.tree.teams[LoserOf(m)].status == TeamDisqualified, disputed);
  }

  lemma {:induction false} NoAwardsYet(d: Desk)
    requires Sane(d) && d.tree.status == InProgress
    ensures d.purse.awards == [] && d.purse.version == 0
  {
  }

  /** What the result of the final leaves besides the settlement. */
  lemma {:induction false} FinalIsSettled(d: Desk, key: Key, disputed: set<UserId>)
    requires Sane(d) && Applicable(d.tree, key) && key.round == d.tree.rounds && ApplyMatch(d, key, disputed).Ok?
    ensures var m := d.tree.matches[key];
      && WinnerOf(m) < |d.tree.members| && LoserOf(m) < |d.tree.teams| && d.tree.status == InProgress
      && S.PayFinalists(d.purse, d.prizePool, InIdOrder(d.tree.members[WinnerOf(m)]),
                        InIdOrder(d.tree.members[LoserOf(m)]), d.tree.teams[LoserOf(m)].status == TeamDisqualified,
                        disputed)
           == Ok(ApplyMatch(d, key, disputed).value.purse)
    ensures var e := ApplyMatch(d, key, disputed).value;
      && Apply(d.tree, key) == Ok(e.tree) && OnlyPlaced(d, e)
      && e.prizePool == d.prizePool && e.corrections == d.corrections
  {
    FinalRows(d, key);
    var m, next := d.tree.matches[key], Apply(d.tree, key).value;
    assert ApplyMatch(d, key, disputed) == SettleFinal(d.(tree := next), WinnerOf(m), LoserOf(m), disputed);
  }

  lemma {:induction false} SettlementPays(p: S.Purse, pool: nat, winners: Pair, losers: Pair, skip: bool,
      disputed: set<UserId>)
    requires FourPeople(winners, losers) && S.FourPlayers(p, InIdOrder(winners), InIdOrder(losers))
    requires p.awards == [] && p.version == 0
    requires S.PayFinalists(p, pool, InIdOrder(winners), InIdOrder(losers), skip, disputed).Ok?
    ensures var q := S.PayFinalists(p, pool, InIdOrder(winners), InIdOrder(losers), skip, disputed).value;
      && PaidOut(p.book.balances, q.book.balances, pool, winners, losers, skip, disputed)
      && AwardsAre(q.awards, 1, pool, winners, losers, skip, disputed) && q.version == 1
  {
    var q := S.PayFinalists(p, pool, InIdOrder(winners), InIdOrder(losers), skip, disputed).value;
    SettlementAwards(p, pool, winners, losers, skip, disputed);
    assert q.awards[0..] == q.awards;
    WalletsPaid(p, pool, winners, losers, skip, disputed);
  }

  lemma {:induction false} WalletsPaid(p: S.Purse, pool: nat, winners: Pair, losers: Pair, skip: bool,
      disputed: set<UserId>)
    requires FourPeople(winners, losers) && S.FourPlayers(p, InIdOrder(winners), InIdOrder(losers))
    requires S.PayFinalists(p, pool, InIdOrder(winners), InIdOrder(losers), skip, disputed).Ok?
    ensures var q := S.PayFinalists(p, pool, InIdOrder(winners), InIdOrder(losers), skip, disputed).value;
      && q.version == p.version + 1
      && PaidOut(p.book.balances, q.book.balances, pool, winners, losers, skip, disputed)
  {
    var q := S.PayFinalists(p, pool, InIdOrder(winners), InIdOrder(losers), skip, disputed).value;
    forall u | u in p.book.balances
      ensures u in q.book.balances
      ensures q.book.balances[u] == p.book.balances[u] + Credit(pool, winners, losers, skip, disputed, u)
    {
      O.SettlementPaysShares(p, pool, InIdOrder(winners), InIdOrder(losers), skip, disputed, u);
      ShareIsDue(pool, winners, losers, skip, disputed, u);
    }
    SameWallets(p, pool, InIdOrder(winners), InIdOrder(losers), skip, disputed);
  }

  lemma {:induction false} SameWallets(p: S.Purse, pool: nat, one: S.Finalists, two: S.Finalists, skip: bool,
      disputed: set<UserId>)
    requires S.FourPlayers(p, one, two) && S.PayFinalists(p, pool, one, two, skip, disputed).Ok?
    ensures S.PayFinalists(p, pool, one, two, skip, disputed).value.book.balances.Keys == p.book.balances.Keys
  {
    var q := S.PayTeam(p, one, 1, S.ChampionPool(pool), p.version + 1, disputed).value;
    assert q.book.balances.Keys == p.book.balances.Keys;
  }

  /** Any other result leaves purse, registrations and corrections as they were. */
  lemma {:induction false} OtherResultsPayNothing(d: Desk, key: Key, disputed: set<UserId>)
    requires Sane(d) && !(Applicable(d.tree, key) && key.round == d.tree.rounds)
    ensures ApplyMatch(d, key, disputed).Ok? && Apply(d.tree, key).Ok?
    ensures ApplyMatch(d, key, disputed).value == d.(tree := Apply(d.tree, key).value)
  {
    ApplyKeepsShape(d.tree, key);
    ApplyCountsOnce(d.tree, key);
    if Applicable(d.tree, key) {
      ApplicableMeansOpen(d.tree, key);
      OutcomeIsRight(d.tree, key);
      assert Apply(d.tree, key).value.status == InProgress;
    }
  }

  // ---- corrections -----------------------------------------------------------------------------------

  /** The same awards as before, all of them taken back. */
  ghost predicate AllReversed(before: seq<S.Award>, after: seq<S.Award>) {
    && |after| == |before|
    && forall i :: 0 <= i < |before| ==>
         && after[i].status == S.Reversed && after[i].user == before[i].user
         && after[i].amount == before[i].amount && after[i].version == before[i].version
  }

  lemma {:induction false} ReversingKeepsWhose(p: S.Purse, i: nat)
    requires i <= |p.awards| && S.ReverseCredited(p, i).Ok?
    ensures var after := S.ReverseCredited(p, i).value.awards;
      |after| == |p.awards| && forall j :: 0 <= j < |after| ==>
        after[j].user == p.awards[j].user && after[j].amount == p.awards[j].amount &&
          after[j].version == p.awards[j].version
    decreases |p.awards| - i
  {
    if i == |p.awards| {
    } else if p.awards[i].version == p.version && p.awards[i].status == S.Credited {
      ReversingKeepsWhose(S.ReverseAt(p, i).value, i + 1);
    } else {
      ReversingKeepsWhose(p, i + 1);
    }
  }

  /**
   * An accepted new correction: whatever was paid before, every wallet holds the player's
   * other money and what the place named for the player's team is worth; all earlier
   * awards are reversed, and the named teams have the awards of the next version.
   */
  lemma {:induction false} CorrectionPaysTheNamed(d: Desk, champions: seq<UserId>, runnersUp: seq<UserId>,
      request: nat, disputed: set<UserId>)
    requires NewCorrection(d, champions, runnersUp, request, disputed)
    ensures champions != [] && runnersUp != [] && Accepts(d.registrations, champions, runnersUp)
    ensures var c, r := TheTeam(d.registrations, champions), TheTeam(d.registrations, runnersUp);
      var e := CorrectDesk(d, champions, runnersUp, request, disputed).value;
      && c < |d.tree.members| && r < |d.tree.members| && c != r
      && (set u | u in champions) == {d.tree.members[c].first, d.tree.members[c].second}
      && (set u | u in runnersUp) == {d.tree.members[r].first, d.tree.members[r].second}
      && Renewed(d.purse, e.purse, d.prizePool, d.tree.members[c], d.tree.members[r], disputed)
      && e.corrections == d.corrections + {request} && e.prizePool == d.prizePool
  {
    AcceptedMeansTwoWholeTeams(d, champions, runnersUp);
    var c, r := TheTeam(d.registrations, champions), TheTeam(d.registrations, runnersUp);
    var paid := S.Correct(d.purse, d.prizePool, InIdOrder(d.tree.members[c]), InIdOrder(d.tree.members[r]), disputed);
    AcceptedCorrection(d, champions, runnersUp, c, r, paid, request, disputed);
    TeamsAreFour(d, c, r);
    CorrectionRenews(d.purse, d.prizePool, d.tree.members[c], d.tree.members[r], disputed);
  }

  /** Everything paid before is taken back, and the pool is paid again to these teams. */
  ghost predicate Renewed(p: S.Purse, q: S.Purse, pool: nat, winners: Pair, losers: Pair, disputed: set<UserId>) {
    && q.version == p.version + 1
    && PaidOut(WithoutPrizes(p), q.book.balances, pool, winners, losers, false, disputed)
    && |q.awards| >= |p.awards| && AllReversed(p.awards, q.awards[..|p.awards|])
    && AwardsAre(q.awards[|p.awards|..], q.version, pool, winners, losers, false, disputed)
  }

  lemma {:induction false} CorrectionRenews(p: S.Purse, pool: nat, winners: Pair, losers: Pair, disputed: set<UserId>)
    requires S.Sound(p) && FourPeople(winners, losers) && S.FourPlayers(p, InIdOrder(winners), InIdOrder(losers))
    requires S.Correct(p, pool, InIdOrder(winners), InIdOrder(losers), disputed).Ok?
    ensures Renewed(p, S.Correct(p, pool, InIdOrder(winners), InIdOrder(losers), disputed).value, pool, winners, losers,
              disputed)
  {
    var r := TakenBackPurse(p, pool, InIdOrder(winners), InIdOrder(losers), disputed);
    SettlementAwards(r, pool, winners, losers, false, disputed);
    WalletsPaid(r, pool, winners, losers, false, disputed);
  }

  /** The purse a correction settles from: every prize taken back. */
  lemma {:induction false} TakenBackPurse(p: S.Purse, pool: nat, one: S.Finalists, two: S.Finalists,
      disputed: set<UserId>) returns (r: S.Purse)
    requires S.Sound(p) && S.FourPlayers(p, one, two)
    ensures S.Correct(p, pool, one, two, disputed) == S.PayFinalists(r, pool, one, two, false, disputed)
    ensures S.FourPlayers(r, one, two) && r.version == p.version
    ensures AllReversed(p.awards, r.awards) && r.book.balances == WithoutPrizes(p)
  {
    S.TakenBack(p);
    ReversingKeepsWhose(p, 0);
    var q := S.ReverseCredited(p, 0).value;
    r := q.(awards := S.ReverseHeld(q.awards, q.version), prizeWon := map[]);
  }

  // ---- repeated corrections ------------------------------------------------------------------------------

  predicate Uses(d: Desk, a: Action)
    requires |d.tree.members| == |d.tree.teams|
  {
    a.CorrectResults? && CorrectDesk(d, a.champions, a.runnersUp, a.request, a.disputed).Ok?
  }

  /** A request id is used up by an accepted correction and by nothing else; a refused one does not count. */
  lemma {:induction false} OnlyAcceptedCorrectionsCount(d: Desk, a: Action)
    requires Sane(d)
    ensures Act(d, a).corrections == d.corrections + if Uses(d, a) then {a.request} else {}
    ensures a.CorrectResults? && !Uses(d, a) ==> Act(d, a) == d
  {
    match a {
      case DisqualifyPlayer(user, disputed) => DisqualifyingUsesNone(d, user, disputed);
      case CorrectResults(champions, runnersUp, request, disputed) =>
        if Uses(d, a) && request !in d.corrections {
          CorrectionPaysTheNamed(d, champions, runnersUp, request, disputed);
        }
      case _ =>
    }
  }

  lemma {:induction false} DisqualifyingUsesNone(d: Desk, user: UserId, disputed: set<UserId>)
    requires Sane(d)
    ensures Committed(d, DisqualifyDesk(d, user, disputed)).corrections == d.corrections
  {
    if user in d.registrations {
      DisqualifySane(d, user, disputed);
      if key :| key in ActiveMatchesOf(d.tree, user) {
        ForfeitUsesNone(d, user, key, disputed);
      }
    }
  }

  lemma {:induction false} ForfeitUsesNone(d: Desk, user: UserId, key: Key, disputed: set<UserId>)
    requires Sane(d) && user in d.registrations && key in d.tree.matches
    ensures Committed(d, ApplyMatch(AfterForfeit(d, user, key), key, disputed)).corrections == d.corrections
  {
    ForfeitedSane(d, user, key);
    var f := AfterForfeit(d, user, key);
    assert f.corrections == d.corrections;
    ResultUsesNone(f, key, disputed);
  }

  lemma {:induction false} ResultUsesNone(d: Desk, key: Key, disputed: set<UserId>)
    requires Sane(d)
    ensures ApplyMatch(d, key, disputed).Ok? ==> ApplyMatch(d, key, disputed).value.corrections == d.corrections
  {
    ApplyMatchSane(d, key, disputed);
  }

  lemma {:induction false} RequestsStay(d: Desk, actions: seq<Action>, e: Desk)
    requires Sane(d) && Reaches(d, actions, e)
    ensures Sane(e) && d.corrections <= e.corrections
    decreases |actions|
  {
    if actions == [] {
    } else {
      ActSane(d, actions[0]);
      OnlyAcceptedCorrectionsCount(d, actions[0]);
      RequestsStay(Act(d, actions[0]), actions[1..], e);
    }
  }

  /**
   * After an accepted correction, whatever else happens, the same request changes nothing
   * any more, with any names and any disputes.
   */
  lemma {:induction false} CorrectionIsMadeOnce(d: Desk, champions: seq<UserId>, runnersUp: seq<UserId>, request: nat,
      disputed: set<UserId>, actions: seq<Action>, f: Desk, again: Action)
    requires Sane(d) && CorrectDesk(d, champions, runnersUp, request, disputed).Ok?
    requires Reaches(CorrectDesk(d, champions, runnersUp, request, disputed).value, actions, f)
    requires again.CorrectResults? && again.request == request
    ensures Sane(f) && Act(f, again) == f
  {
    var first := CorrectResults(champions, runnersUp, request, disputed);
    ActSane(d, first);
    OnlyAcceptedCorrectionsCount(d, first);
    RequestsStay(Act(d, first), actions, f);
    CorrectionGoesThrough(f, again.champions, again.runnersUp, request, again.disputed);
  }

  // ---- disqualifications ------------------------------------------------------------------------------------

  /** The rows of a disqualification: registration, team and held awards; no wallet moves. */
  lemma {:induction false} ExpelIs(d: Desk, user: UserId)
    requires Sane(d) && user in d.registrations
    ensures var e := Expel(d, user); var r := d.registrations[user];
      && e.registrations == d.registrations[user := Registration(r.team, true, r.placement)]
      && e.tree.matches == d.tree.matches && e.tree.members == d.tree.members && |e.tree.teams| == |d.tree.teams|
      && (forall t: nat :: t < |d.tree.teams| ==>
            e.tree.teams[t] == d.tree.teams[t].(status := if r.team == Some(t) then TeamDisqualified
                                                         else d.tree.teams[t].status))
      && e.purse.book == d.purse.book && |e.purse.awards| == |d.purse.awards|
      && (forall i :: 0 <= i < |d.purse.awards| ==> var a := d.purse.awards[i];
            e.purse.awards[i] == if a.user == user && a.status == S.Held then a.(status := S.Reversed) else a)
      && e.purse.prizeWon == d.purse.prizeWon - {user} && e.corrections == d.corrections
      && e.purse.settled == d.purse.settled && e.purse.version == d.purse.version
  {
  }
}
