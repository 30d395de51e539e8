/**
 * `TournamentProgressionService` over its tables: each method is one database
 * transaction, proved to move the tables exactly as the specification in `Desk`
 * says, or to leave them untouched when it is refused.
 */
module TournamentProgression {
  import opened Common
  import opened Bracket
  import opened Draw
  import opened Sorting
  import opened Desk
  import S = Settlement
  import L = Ledger

  class Service {
    var status: TournamentStatus
    var rounds: nat
    var teams: seq<Team>
    var matches: map<Key, Match>
    var registrations: map<UserId, Registration>
    var corrections: set<nat>
    var prizePool: nat
    var settlementPool: nat
    var settlementVersion: nat
    var settled: bool
    var awards: seq<S.Award>
    var book: L.Book<S.Ref>
    var prizeWon: map<UserId, nat>
    /** The teams as drawn; the service itself finds a team's players through the registrations. */
    ghost var members: seq<Pair>

    ghost function TreeNow(): Tree
      reads this
    {
      Tree(rounds, status, members, teams, matches)
    }

    function PurseNow(): S.Purse
      reads this
    {
      S.Purse(settlementPool, settlementVersion, settled, awards, book, prizeWon)
    }

    ghost function Now(): Desk
      reads this
    {
      Desk(TreeNow(), prizePool, PurseNow(), registrations, corrections)
    }

    // ---- start -------------------------------------------------------------------

    /** An unstartable field cancels the tournament; a good one is drawn, paired and seated in round 1. */
    method Start(hash: (nat, UserId) -> nat, seed: nat, players: seq<UserId>) returns (accepted: bool)
      requires NoRepeats(players) && forall u :: u in players ==> u in registrations
      requires status == Registering ==> teams == [] && matches == map[]
      modifies this`teams, this`registrations, this`matches, this`status, this`rounds, this`members
      ensures accepted <==> old(status) in {Registering, InProgress}
      ensures old(status) != Registering ==> Now() == old(Now())
      ensures old(status) == Registering && !(|players| >= 4 && IsPowerOfTwo(|players|)) ==>
        Now() == old(Now()).(tree := old(TreeNow()).(status := Cancelled))
      ensures old(status) == Registering && |players| >= 4 && IsPowerOfTwo(|players|) ==>
        Now() == Started(old(Now()), hash, seed, players)
    {
      accepted := status in {Registering, InProgress};
      if status != Registering {
        return;
      }
      if |players| < 4 || !IsPowerOfTwo(|players|) {
        status := Cancelled;
        return;
      }
      EvenField(|players|);
      DrawBracket(hash, seed, players);
    }

    method DrawBracket(hash: (nat, UserId) -> nat, seed: nat, players: seq<UserId>)
      requires |players| % 2 == 0 && teams == [] && matches == map[] && forall u :: u in players ==> u in registrations
      modifies this`teams, this`registrations, this`matches, this`status, this`rounds, this`members
      ensures Now() == Started(old(Now()), hash, seed, players)
    {
      DrawnPlayers(hash, seed, players);
      FormBracket(StableDraw(hash, seed, players));
    }

    method FormBracket(draw: seq<UserId>)
      requires |draw| % 2 == 0 && teams == [] && matches == map[]
      requires forall t :: 0 <= t < |Teams(draw)| ==>
        Teams(draw)[t].first in registrations && Teams(draw)[t].second in registrations
      modifies this`teams, this`registrations, this`matches, this`status, this`rounds, this`members
      ensures TreeNow() == Begin(Log2(|Teams(draw)|), Teams(draw))
      ensures registrations == AssignTeams(old(registrations), Teams(draw), |Teams(draw)|)
    {
      var pairs := CreateTeams(draw);
      CreateFirstRound(pairs);
      status := InProgress;
      rounds := Log2(|pairs|);
      members := pairs;
    }

    /** Players 2i and 2i+1 of the draw become team i. */
    method CreateTeams(draw: seq<UserId>) returns (pairs: seq<Pair>)
      requires |draw| % 2 == 0 && teams == []
      requires forall t :: 0 <= t < |Teams(draw)| ==>
        Teams(draw)[t].first in registrations && Teams(draw)[t].second in registrations
      modifies this`teams, this`registrations
      ensures pairs == Teams(draw)
      ensures teams == NewTeams(|pairs|)
      ensures registrations == AssignTeams(old(registrations), Teams(draw), |pairs|)
    {
      ghost var before, drawn := registrations, Teams(draw);
      pairs := [];
      var index := 0;
      while index < |draw|
        invariant 0 <= index <= |draw| && index % 2 == 0
        invariant pairs == drawn[..index / 2]
        invariant teams == NewTeams(index / 2)
        invariant registrations == AssignTeams(before, drawn, index / 2)
      {
        var users := Pair(draw[index], draw[index + 1]);
        assert users == drawn[index / 2];
        var team := |teams|;
        teams := teams + [Team(Active, None, None)];
        registrations := registrations[users.first := registrations[users.first].(team := Some(team))];
        registrations := registrations[users.second := registrations[users.second].(team := Some(team))];
        pairs := pairs + [users];
        index := index + 2;
      }
    }

    method CreateFirstRound(pairs: seq<Pair>)
      requires matches == map[]
      modifies this`matches
      ensures matches == FirstRound(pairs)
    {
      var slot := 0;
      while slot < |pairs| / 2
        invariant 0 <= slot <= |pairs| / 2
        invariant matches == FirstMatches(pairs, slot)
      {
        OneMoreFirstMatch(pairs, slot);
        var created := CreateMatch(1, slot, Entrant(2 * slot, pairs[2 * slot]),
          Entrant(2 * slot + 1, pairs[2 * slot + 1]));
        slot := slot + 1;
      }
      AllFirstMatches(pairs);
    }

    /** The unique creation request id refuses a second match at the same position. */
    method CreateMatch(round: nat, slot: nat, one: Entrant, two: Entrant) returns (created: bool)
      modifies this`matches
      ensures created <==> Key(round, slot) !in old(matches)
      ensures created ==>
        matches == old(matches)[Key(round, slot) := NewMatch(one.team, one.players, two.team, two.players)]
      ensures !created ==> matches == old(matches)
    {
      created := Key(round, slot) !in matches;
      if created {
        var seats := [Seat(one.players.first, 0, 0, one.team), Seat(two.players.first, 1, 1, two.team),
                      Seat(one.players.second, 2, 0, one.team), Seat(two.players.second, 3, 1, two.team)];
        matches := matches[Key(round, slot) := Match(seats, Playing, None, false)];
      }
    }

    // ---- reading a team's players ---------------------------------------------------

    /** `registrations where teamId = team order by userId`. */
    method TeamPlayers(team: nat) returns (players: S.Finalists)
      requires Roster(Now()) && team < |members|
      ensures players == InIdOrder(members[team])
    {
      var found: seq<UserId> := [];
      var rest := registrations.Keys;
      while rest != {}
        invariant rest <= registrations.Keys
        invariant NoRepeats(found)
        invariant forall u :: u in found <==> u in registrations && u !in rest && registrations[u].team == Some(team)
        decreases |rest|
      {
        var u :| u in rest;
        rest := rest - {u};
        if registrations[u].team == Some(team) {
          found := found + [u];
        }
      }
      ghost var p := members[team];
      assert TreeNow().members[team] == p;
      assert forall u :: u in found ==> u in {p.first, p.second} by {
        forall u | u in found ensures u in {p.first, p.second} { assert On(TreeNow().members[team], u); }
      }
      TwoFound(found, p);
      players := if found[0] <= found[1] then S.Finalists(found[0], found[1]) else S.Finalists(found[1], found[0]);
    }

    // ---- paying ------------------------------------------------------------------------

    /** Credits or holds the two prizes of one finalist team. */
    method CreditTeam(team: S.Finalists, placement: nat, teamPool: nat, version: nat,
        disputed: set<UserId>) returns (failure: Option<S.Failure>)
      modifies this`awards, this`book, this`prizeWon
      ensures var outcome := S.PayTeam(old(PurseNow()), team, placement, teamPool, version, disputed);
        failure == WhyRefused(outcome) && PurseNow() == Committed(old(PurseNow()), outcome)
    {
      var savedAwards, savedBook, savedPrizes := awards, book, prizeWon;
      ghost var start := PurseNow();
      var first := teamPool / 2;
      var amounts: seq<nat> := [first, teamPool - first];
      var users := [team.first, team.second];
      failure := None;
      var index := 0;
      while index < 2 && failure == None
        invariant 0 <= index <= 2
        invariant failure == None ==> index == 0 ==> PurseNow() == start
        invariant failure == None ==> index == 1 ==>
          S.Pay(start, team.first, placement, amounts[0], version, team.first in disputed) == Ok(PurseNow())
        invariant failure == None ==> index == 2 ==>
          S.PayTeam(start, team, placement, teamPool, version, disputed) == Ok(PurseNow())
        invariant failure.Some? ==> S.PayTeam(start, team, placement, teamPool, version, disputed) == Err(failure.value)
        decreases 2 - index, failure == None
      {
        var user, amount := users[index], amounts[index];
        if S.HasAward(awards, user, version) {
          failure := Some(S.AwardExists);
        } else if user in disputed {
          awards := awards + [S.Award(user, placement, amount, version, S.Held, None, None)];
          index := index + 1;
        } else {
          var outcome := L.Record(book, S.PrizeEntry(user, amount, version));
          if outcome.Err? {
            failure := Some(S.NotRecorded(outcome.error));
          } else {
            awards := awards + [S.Award(user, placement, amount, version, S.Credited, Some(|book.rows|), None)];
            book := outcome.value;
            prizeWon := prizeWon[user := amount];
            index := index + 1;
          }
        }
      }
      if failure.Some? {
        awards, book, prizeWon := savedAwards, savedBook, savedPrizes;
      }
    }

    method CreditBoth(champions: S.Finalists, runnersUp: S.Finalists, skipRunnersUp: bool,
        disputed: set<UserId>) returns (failure: Option<S.Failure>)
      modifies this`awards, this`book, this`prizeWon
      ensures var outcome := S.PayBoth(old(PurseNow()), prizePool, champions, runnersUp, skipRunnersUp, disputed);
        failure == WhyRefused(outcome) && PurseNow() == Committed(old(PurseNow()), outcome)
    {
      var saved := PurseNow();
      var version, championPool := settlementVersion + 1, S.ChampionPool(prizePool);
      failure := CreditTeam(champions, 1, championPool, version, disputed);
      if failure.None? && !skipRunnersUp {
        failure := CreditSecond(runnersUp, prizePool - championPool, version, disputed, saved);
      }
    }

    /** The runners-up; if they are refused, the champions' prizes are undone too. */
    method CreditSecond(team: S.Finalists, teamPool: nat, version: nat, disputed: set<UserId>,
        saved: S.Purse) returns (failure: Option<S.Failure>)
      requires saved == PurseNow().(awards := saved.awards, book := saved.book, prizeWon := saved.prizeWon)
      modifies this`awards, this`book, this`prizeWon
      ensures var outcome := S.PayTeam(old(PurseNow()), team, 2, teamPool, version, disputed);
        failure == WhyRefused(outcome) && PurseNow() == Committed(saved, outcome)
    {
      failure := CreditTeam(team, 2, teamPool, version, disputed);
      if failure.Some? {
        awards, book, prizeWon := saved.awards, saved.book, saved.prizeWon;
      }
    }

    /** Pays both finalist teams at the next version and stamps the settlement. */
    method PayFinalists(champions: S.Finalists, runnersUp: S.Finalists, skipRunnersUp: bool,
        disputed: set<UserId>) returns (failure: Option<S.Failure>)
      modifies this`awards, this`book, this`prizeWon, this`settlementPool, this`settlementVersion, this`settled
      ensures var outcome := S.PayFinalists(old(PurseNow()), prizePool, champions, runnersUp, skipRunnersUp, disputed);
        failure == WhyRefused(outcome) && PurseNow() == Committed(old(PurseNow()), outcome)
    {
      failure := CreditBoth(champions, runnersUp, skipRunnersUp, disputed);
      if failure.None? {
        settlementPool := prizePool;
        settlementVersion := settlementVersion + 1;
        settled := !S.AnyHeldAt(awards, settlementVersion);
      }
    }

    method PlaceRegistrations()
      modifies this`registrations
      ensures registrations == CopyPlacements(old(registrations), teams)
    {
      ghost var before := registrations;
      var t := 0;
      while t < |teams|
        invariant 0 <= t <= |teams|
        invariant registrations == CopyPlacements(before, teams[..t])
      {
        if teams[t].placement.Some? {
          registrations := map u | u in registrations ::
            if registrations[u].team == Some(t) then registrations[u].(placement := teams[t].placement)
              else registrations[u];
        }
        assert teams[..t + 1] == teams[..t] + [teams[t]];
        t := t + 1;
      }
      assert teams[..t] == teams;
    }

    /** Copies placements to the registrations, then pays; a disqualified runner-up team gets nothing. */
    method Settle(champion: nat, runnerUp: nat, disputed: set<UserId>) returns (refusal: Option<Refusal>)
      requires Roster(Now()) && champion < |members| && runnerUp < |members| == |teams|
      modifies this`registrations, this`awards, this`book, this`prizeWon, this`settlementPool, this`settlementVersion,
        this`settled
      ensures var outcome := SettleFinal(old(Now()), champion, runnerUp, disputed);
        refusal == WhyRefused(outcome) && Now() == Committed(old(Now()), outcome)
    {
      var champions := TeamPlayers(champion);
      var runnersUp := TeamPlayers(runnerUp);
      refusal := SettleTeams(champion, runnerUp, champions, runnersUp, disputed);
    }

    method SettleTeams(champion: nat, runnerUp: nat, champions: S.Finalists, runnersUp: S.Finalists,
        disputed: set<UserId>)
        returns (refusal: Option<Refusal>)
      requires champion < |members| && runnerUp < |members| == |teams|
      requires champions == InIdOrder(members[champion]) && runnersUp == InIdOrder(members[runnerUp])
      modifies this`registrations, this`awards, this`book, this`prizeWon, this`settlementPool, this`settlementVersion,
        this`settled
      ensures var outcome := SettleFinal(old(Now()), champion, runnerUp, disputed);
        refusal == WhyRefused(outcome) && Now() == Committed(old(Now()), outcome)
    {
      var saved := registrations;
      var skip := teams[runnerUp].status == TeamDisqualified;
      ghost var start := Now();
      PlaceRegistrations();
      var failure := PayOrUndo(champions, runnersUp, skip, disputed, saved);
      refusal := if failure.Some? then Some(BySettlement(failure.value)) else None;
      SettledAs(start, Now(), champion, runnerUp, disputed,
        S.PayFinalists(start.purse, prizePool, champions, runnersUp, skip, disputed));
    }

    /** Pays the finalists; a refusal undoes the placements too. */
    method PayOrUndo(champions: S.Finalists, runnersUp: S.Finalists, skipRunnersUp: bool, disputed: set<UserId>,
        saved: map<UserId, Registration>) returns (failure: Option<S.Failure>)
      modifies this`registrations, this`awards, this`book, this`prizeWon, this`settlementPool, this`settlementVersion,
        this`settled
      ensures var outcome := S.PayFinalists(old(PurseNow()), prizePool, champions, runnersUp, skipRunnersUp, disputed);
        && failure == WhyRefused(outcome) && PurseNow() == Committed(old(PurseNow()), outcome)
        && registrations == if outcome.Ok? then old(registrations) else saved
    {
      failure := PayFinalists(champions, runnersUp, skipRunnersUp, disputed);
      if failure.Some? {
        registrations := saved;
      }
    }

    // ---- applyCompletedMatch -------------------------------------------------------------

    /** The rows of the loser, the match and, in the final, the champion and the tournament. */
    method RecordResult(key: Key, winner: nat, loser: nat)
      requires key in matches && key.round <= rounds && winner < |teams| && loser < |teams|
      modifies this`teams, this`matches, this`status
      ensures TreeNow() == WithResult(old(TreeNow()), key, Outcome(winner, loser))
    {
      var loserPlacement := Pow2(rounds - key.round) + 1;
      var loserTeam := teams[loser];
      var loserStatus := if loserTeam.status == TeamDisqualified then TeamDisqualified
                         else if key.round == rounds then RunnerUp else Eliminated;
      teams := teams[loser := Team(loserStatus, Some(loserPlacement), Some(key.round))];
      matches := matches[key := matches[key].(applied := true)];
      if key.round == rounds {
        teams := teams[winner := teams[winner].(status := Champion, placement := Some(1))];
        status := Completed;
      }
    }

    /** Seats the next match once both sources are applied. */
    method AdvanceWinners(key: Key) returns (failure: Option<Failure>)
      modifies this`matches
      ensures var outcome := Advance(old(TreeNow()), key);
        failure == WhyRefused(outcome) && TreeNow() == Committed(old(TreeNow()), outcome)
    {
      var nextSlot := key.slot / 2;
      var left, right := Key(key.round, 2 * nextSlot), Key(key.round, 2 * nextSlot + 1);
      if !(left in matches && matches[left].applied && right in matches && matches[right].applied) {
        return None;
      }
      var one, two := WinnerEntry(matches[left]), WinnerEntry(matches[right]);
      if one.Err? {
        return Some(one.error);
      }
      if two.Err? {
        return Some(two.error);
      }
      var created := CreateMatch(key.round + 1, nextSlot, one.value, two.value);
      failure := if created then None else Some(DuplicateMatch);
    }

    /** Applies one finished match, once; everything it writes is rolled back if it is refused. */
    method ApplyCompletedMatch(key: Key, disputed: set<UserId>) returns (refusal: Option<Refusal>)
      requires Roster(Now()) && |members| == |teams|
      modifies this`teams, this`matches, this`status, this`registrations, this`awards, this`book, this`prizeWon,
               this`settlementPool, this`settlementVersion, this`settled
      ensures var outcome := ApplyMatch(old(Now()), key, disputed);
        refusal == WhyRefused(outcome) && Now() == Committed(old(Now()), outcome)
    {
      refusal := None;
      if key !in matches || matches[key].applied || matches[key].winner == None || matches[key].status == Playing {
        return;
      }
      var m := matches[key];
      var winner := TeamOnSide(m.seats, m.winner.value);
      if winner == None {
        return Some(ByBracket(InvalidTeams));
      }
      var loser := OtherTeam(m.seats, winner.value);
      if loser == None || |TeamIds(m.seats)| != 2 {
        return Some(ByBracket(InvalidTeams));
      }
      if status != InProgress || rounds == 0 {
        return Some(ByBracket(BracketNotActive));
      }
      if key.round > rounds || winner.value >= |teams| || loser.value >= |teams| {
        return Some(ByBracket(InvalidTeams));
      }
      refusal := WriteResult(key, winner.value, loser.value, disputed);
    }

method WriteResult(key: Key, winner: nat, loser: nat, disputed: set<UserId>) returns (refusal: Option<Refusal>)
      requires Roster(Now()) && |members| == |teams| && status == InProgress
      requires key in matches && key.round <= rounds && winner < |teams| && loser < |teams|
      modifies this`teams, this`matches, this`status, this`registrations, this`awards, this`book, this`prizeWon,
               this`settlementPool, this`settlementVersion, this`settled
      ensures var outcome := AfterResult(old(Now()), key, Outcome(winner, loser), disputed);
        refusal == WhyRefused(outcome) && Now() == Committed(old(Now()), outcome)
    {
      var savedTeams, savedMatches, savedStatus := teams, matches, status;
      RecordResult(key, winner, loser);
      if key.round == rounds {
        refusal := SettleOrUndo(winner, loser, disputed, savedTeams, savedMatches, savedStatus);
      } else {
        refusal := AdvanceOrUndo(key, savedTeams, savedMatches, savedStatus);
      }
    }

    /** Settles the final; a refusal undoes its result too. */
    method SettleOrUndo(champion: nat, runnerUp: nat, disputed: set<UserId>, savedTeams: seq<Team>,
        savedMatches: map<Key, Match>, savedStatus: TournamentStatus) returns (refusal: Option<Refusal>)
      requires Roster(Now()) && champion < |members| && runnerUp < |members| == |teams|
      modifies this`teams, this`matches, this`status, this`registrations, this`awards, this`book, this`prizeWon,
               this`settlementPool, this`settlementVersion, this`settled
      ensures var outcome := SettleFinal(old(Now()), champion, runnerUp, disputed);
        && refusal == WhyRefused(outcome)
        && Now() == Committed(old(Now()).(tree :=
           old(TreeNow()).(teams := savedTeams, matches := savedMatches, status := savedStatus)), outcome)
    {
      refusal := Settle(champion, runnerUp, disputed);
      if refusal.Some? {
        teams, matches, status := savedTeams, savedMatches, savedStatus;
      }
    }

    /** Creates the next match; a refusal undoes the result too. */
    method AdvanceOrUndo(key: Key, savedTeams: seq<Team>, savedMatches: map<Key, Match>, savedStatus: TournamentStatus)
        returns (refusal: Option<Refusal>)
      modifies this`teams, this`matches, this`status
      ensures match Advance(old(TreeNow()), key)
              case Err(why) =>
                && refusal == Some(ByBracket(why))
                && TreeNow() == old(TreeNow()).(teams := savedTeams, matches := savedMatches, status := savedStatus)
              case Ok(t) => refusal == None && TreeNow() == t
    {
      var failure := AdvanceWinners(key);
      refusal := None;
      if failure.Some? {
        teams, matches, status := savedTeams, savedMatches, savedStatus;
        refusal := Some(ByBracket(failure.value));
      }
    }

    // ---- correctResults ------------------------------------------------------------------------

    /** Takes back every credited award of the current version. */
    method ReverseAwards() returns (failure: Option<S.Failure>)
      modifies this`awards, this`book
      ensures var outcome := S.ReverseCredited(old(PurseNow()), 0);
        failure == WhyRefused(outcome) && PurseNow() == Committed(old(PurseNow()), outcome)
    {
      var savedAwards, savedBook := awards, book;
      ghost var start := PurseNow();
      failure := None;
      var i := 0;
      while i < |awards| && failure == None
        invariant 0 <= i <= |awards|
        invariant failure == None ==> S.ReverseCredited(start, 0) == S.ReverseCredited(PurseNow(), i)
        invariant failure.Some? ==> S.ReverseCredited(start, 0) == Err(failure.value)
        decreases |awards| - i, failure == None
      {
        var award := awards[i];
        if award.version == settlementVersion && award.status == S.Credited {
          var outcome := L.Record(book, S.ReversalEntry(award));
          if outcome.Err? {
            failure := Some(S.NotRecorded(outcome.error));
          } else {
            awards := awards[i := award.(status := S.Reversed, reversal := Some(|book.rows|))];
            book := outcome.value;
            i := i + 1;
          }
        } else {
          i := i + 1;
        }
      }
      if failure.Some? {
        awards, book := savedAwards, savedBook;
      }
    }

    /** The money half of a correction. */
    method RepayAwards(champions: S.Finalists, runnersUp: S.Finalists,
        disputed: set<UserId>) returns (failure: Option<S.Failure>)
      modifies this`awards, this`book, this`prizeWon, this`settlementPool, this`settlementVersion, this`settled
      ensures var outcome := S.Correct(old(PurseNow()), prizePool, champions, runnersUp, disputed);
        failure == WhyRefused(outcome) && PurseNow() == Committed(old(PurseNow()), outcome)
    {
      var savedAwards, savedBook, savedPrizes := awards, book, prizeWon;
      failure := ReverseAwards();
      if failure.Some? {
        return;
      }
      awards := S.ReverseHeld(awards, settlementVersion);
      prizeWon := map[];
      failure := PayFinalists(champions, runnersUp, false, disputed);
      if failure.Some? {
        awards, book, prizeWon := savedAwards, savedBook, savedPrizes;
      }
    }

    /** Demotes whoever holds a title, then crowns the corrected teams. */
    method CrownTeams(champion: nat, runnerUp: nat)
      requires champion < |teams| && runnerUp < |teams|
      modifies this`teams, this`registrations
      ensures teams == Recrown(old(teams), champion, runnerUp)
      ensures registrations == Replace(Replace(old(registrations), champion, 1), runnerUp, 2)
    {
      ghost var before := teams;
      var t := 0;
      while t < |teams|
        invariant 0 <= t <= |teams| == |before| && registrations == old(registrations)
        invariant forall i :: 0 <= i < |before| ==>
          teams[i] == if i < t && before[i].status in {Champion, RunnerUp} then before[i].(status := Eliminated)
            else before[i]
      {
        if teams[t].status == Champion || teams[t].status == RunnerUp {
          teams := teams[t := teams[t].(status := Eliminated)];
        }
        t := t + 1;
      }
      assert teams == Demote(before);
      teams := teams[champion := teams[champion].(status := Champion, placement := Some(1))];
      teams := teams[runnerUp := teams[runnerUp].(status := RunnerUp, placement := Some(2))];
      registrations := map u | u in registrations ::
        if registrations[u].team == Some(champion) then registrations[u].(placement := Some(1)) else registrations[u];
      assert registrations == Replace(old(registrations), champion, 1);
      registrations := map u | u in registrations ::
        if registrations[u].team == Some(runnerUp) then registrations[u].(placement := Some(2)) else registrations[u];
    }

    /** A correction of the finalists of a completed tournament; the request id makes it take effect once. */
    method CorrectResults(champions: seq<UserId>, runnersUp: seq<UserId>, request: nat,
        disputed: set<UserId>) returns (refusal: Option<Refusal>)
      requires Roster(Now()) && |members| == |teams|
      modifies this`teams, this`registrations, this`awards, this`book, this`prizeWon,
               this`settlementPool, this`settlementVersion, this`settled, this`corrections
      ensures var outcome := CorrectDesk(old(Now()), champions, runnersUp, request, disputed);
        refusal == WhyRefused(outcome) && Now() == Committed(old(Now()), outcome)
    {
      if request in corrections {
        return None;
      }
      var submitted := Submitted(champions, runnersUp);
      if status != Completed || |submitted| != 4 || !AllDrawn(registrations, submitted) {
        return Some(ByValidation);
      }
      SubmittedParts(champions, runnersUp);
      var championTeams, runnerUpTeams := TeamsOf(registrations, champions), TeamsOf(registrations, runnersUp);
      if |championTeams| != 1 || |runnerUpTeams| != 1 || championTeams == runnerUpTeams {
        return Some(ByValidation);
      }
      AcceptedMeansTwoWholeTeams(Now(), champions, runnersUp);
      refusal := Correct(registrations[champions[0]].team.value, registrations[runnersUp[0]].team.value, request,
        disputed);
      AcceptedCorrection(old(Now()), champions, runnersUp, TheTeam(old(registrations), champions),
        TheTeam(old(registrations), runnersUp),
        Repaid(old(Now()), TheTeam(old(registrations), champions), TheTeam(old(registrations), runnersUp), disputed),
          request, disputed);
    }

    method Correct(champion: nat, runnerUp: nat, request: nat, disputed: set<UserId>) returns (refusal: Option<Refusal>)
      requires Roster(Now()) && champion < |members| && runnerUp < |members| == |teams|
      modifies this`teams, this`registrations, this`awards, this`book, this`prizeWon,
               this`settlementPool, this`settlementVersion, this`settled, this`corrections
      ensures match Repaid(old(Now()), champion, runnerUp, disputed)
              case Err(why) => refusal == Some(BySettlement(why)) && Now() == old(Now())
              case Ok(p) => refusal == None && Now() == Corrected(old(Now()), champion, runnerUp, p, request)
    {
      var champions := TeamPlayers(champion);
      var runnersUp := TeamPlayers(runnerUp);
      assert Repaid(Now(), champion, runnerUp, disputed)
          == S.Correct(PurseNow(), prizePool, champions, runnersUp, disputed);
      var failure := RepayAwards(champions, runnersUp, disputed);
      if failure.Some? {
        return Some(BySettlement(failure.value));
      }
      RecordCorrection(champion, runnerUp, request);
      refusal := None;
    }

    method RecordCorrection(champion: nat, runnerUp: nat, request: nat)
      requires champion < |teams| && runnerUp < |teams|
      modifies this`teams, this`registrations, this`corrections
      ensures Now() == Corrected(old(Now()), champion, runnerUp, PurseNow(), request)
    {
      CrownTeams(champion, runnerUp);
      corrections := corrections + {request};
    }

    // ---- releaseHeldAwards -------------------------------------------------------------------------

    /** Credits the player's held prizes, unless another dispute is still open. */
    method ReleaseHeldAwards(user: UserId, stillOpen: bool) returns (failure: Option<S.Failure>)
      modifies this`awards, this`book, this`prizeWon, this`settled
      ensures var outcome := S.Release(old(PurseNow()), user, stillOpen);
        failure == WhyRefused(outcome) && PurseNow() == Committed(old(PurseNow()), outcome)
    {
      failure := None;
      if stillOpen {
        return;
      }
      failure := CreditHeld(user);
      if failure.None? && !S.AnyHeld(awards) {
        settled := true;
      }
    }

    method CreditHeld(user: UserId) returns (failure: Option<S.Failure>)
      modifies this`awards, this`book, this`prizeWon
      ensures var outcome := S.ReleaseFrom(old(PurseNow()), user, 0);
        failure == WhyRefused(outcome) && PurseNow() == Committed(old(PurseNow()), outcome)
    {
      var savedAwards, savedBook, savedPrizes := awards, book, prizeWon;
      ghost var start := PurseNow();
      failure := None;
      var i := 0;
      while i < |awards| && failure == None
        invariant 0 <= i <= |awards|
        invariant failure == None ==> S.ReleaseFrom(start, user, 0) == S.ReleaseFrom(PurseNow(), user, i)
        invariant failure.Some? ==> S.ReleaseFrom(start, user, 0) == Err(failure.value)
        decreases |awards| - i, failure == None
      {
        var award := awards[i];
        if award.user == user && award.status == S.Held {
          var outcome := L.Record(book, S.PrizeEntry(award.user, award.amount, award.version));
          if outcome.Err? {
            failure := Some(S.NotRecorded(outcome.error));
          } else {
            awards := awards[i := award.(status := S.Credited, credit := Some(|book.rows|))];
            book := outcome.value;
            prizeWon := prizeWon[user := award.amount];
            i := i + 1;
          }
        } else {
          i := i + 1;
        }
      }
      if failure.Some? {
        awards, book, prizeWon := savedAwards, savedBook, savedPrizes;
      }
    }

    // ---- disqualifyPlayer --------------------------------------------------------------------------

    /** Marks player and team, drops the player's holds, forfeits a running match and applies that result. */
    method DisqualifyPlayer(user: UserId, disputed: set<UserId>) returns (refusal: Option<Refusal>)
      requires Sane(Now())
      modifies this`teams, this`matches, this`status, this`registrations, this`awards, this`book, this`prizeWon,
               this`settlementPool, this`settlementVersion, this`settled
      ensures var outcome := DisqualifyDesk(old(Now()), user, disputed);
        refusal == WhyRefused(outcome) && Now() == Committed(old(Now()), outcome)
    {
      DisqualifySane(Now(), user, disputed);
      ghost var forfeited;
      refusal, forfeited := DisqualifyOrRollBack(user, disputed);
    }

    method DisqualifyOrRollBack(user: UserId,
        disputed: set<UserId>) returns (refusal: Option<Refusal>, ghost forfeited: Option<Key>)
      requires Roster(Now()) && |members| == |teams|
      modifies this`teams, this`matches, this`status, this`registrations, this`awards, this`book, this`prizeWon,
               this`settlementPool, this`settlementVersion, this`settled
      ensures refusal.Some? ==> Now() == old(Now())
      ensures user !in old(registrations) ==> refusal == None && forfeited == None && Now() == old(Now())
      ensures user in old(registrations) && forfeited == None ==>
        refusal == None && ActiveMatchesOf(old(TreeNow()), user) == {} && Now() == Expel(old(Now()), user)
      ensures forfeited.Some? ==>
        && user in old(registrations) && forfeited.value in ActiveMatchesOf(old(TreeNow()), user)
        && var outcome := ApplyMatch(AfterForfeit(old(Now()), user, forfeited.value), forfeited.value, disputed);
           refusal == WhyRefused(outcome) && (outcome.Ok? ==> Now() == outcome.value)
    {
      var savedTeams, savedMatches, savedStatus := teams, matches, status;
      var savedRegistrations, savedPurse := registrations, PurseNow();
      refusal, forfeited := Disqualify(user, disputed);
      if refusal == None {
        return;
      }
      RollBack(savedTeams, savedMatches, savedStatus, savedRegistrations, savedPurse);
    }

    /** What aborting the transaction does to the tables. */
    method RollBack(teams: seq<Team>, matches: map<Key, Match>, status: TournamentStatus, registrations: map<UserId,
        Registration>, purse: S.Purse)
      modifies this`teams, this`matches, this`status, this`registrations, this`awards, this`book, this`prizeWon,
               this`settlementPool, this`settlementVersion, this`settled
      ensures TreeNow() == old(TreeNow()).(teams := teams, matches := matches, status := status)
      ensures this.registrations == registrations && PurseNow() == purse
    {
      this.teams, this.matches, this.status, this.registrations := teams, matches, status, registrations;
      awards, book, prizeWon := purse.awards, purse.book, purse.prizeWon;
      settlementPool, settlementVersion, settled := purse.pool, purse.version, purse.settled;
    }

    /** The steps of a disqualification, before any rollback; `forfeited` is the running match that was found. */
    method Disqualify(user: UserId,
        disputed: set<UserId>) returns (refusal: Option<Refusal>, ghost forfeited: Option<Key>)
      requires Roster(Now()) && |members| == |teams|
      modifies this`teams, this`matches, this`status, this`registrations, this`awards, this`book, this`prizeWon,
               this`settlementPool, this`settlementVersion, this`settled
      ensures user !in old(registrations) ==> refusal == None && forfeited == None && Now() == old(Now())
      ensures user in old(registrations) && forfeited == None ==>
        refusal == None && ActiveMatchesOf(old(TreeNow()), user) == {} && Now() == Expel(old(Now()), user)
      ensures forfeited.Some? ==>
        && user in old(registrations) && forfeited.value in ActiveMatchesOf(old(TreeNow()), user)
        && var outcome := ApplyMatch(AfterForfeit(old(Now()), user, forfeited.value), forfeited.value, disputed);
           refusal == WhyRefused(outcome) && (outcome.Ok? ==> Now() == outcome.value)
    {
      refusal, forfeited := None, None;
      if user !in registrations {
        return;
      }
      MarkExpelled(user);
      var running := set key | key in matches && matches[key].status == Playing && Seated(matches[key], user);
      assert running == ActiveMatchesOf(old(TreeNow()), user);
      if running == {} {
        return;
      }
      var key :| key in running;
      forfeited := Some(key);
      var side := ForfeitWinner(matches[key].seats, user);
      assert AfterForfeit(old(Now()), user, key) == Now().(tree := Finish(TreeNow(), key, side, true));
      refusal := ForfeitMatch(key, side, disputed);
    }

    /** Ends a running match in favour of `side` and applies the result, or does neither. */
    method ForfeitMatch(key: Key, side: nat, disputed: set<UserId>) returns (refusal: Option<Refusal>)
      requires Roster(Now()) && |members| == |teams|
      requires key in matches && matches[key].status == Playing && side < 2
      modifies this`teams, this`matches, this`status, this`registrations, this`awards, this`book, this`prizeWon,
               this`settlementPool, this`settlementVersion, this`settled
      ensures var outcome := ApplyMatch(old(Now()).(tree := Finish(old(TreeNow()), key, side, true)), key, disputed);
        refusal == WhyRefused(outcome) && Now() == Committed(old(Now()), outcome)
    {
      var saved := matches;
      matches := matches[key := matches[key].(status := Forfeited, winner := Some(side))];
      assert TreeNow() == Finish(old(TreeNow()), key, side, true);
      assert Roster(Now());
      refusal := ApplyCompletedMatch(key, disputed);
      if refusal.Some? {
        matches := saved;
      }
    }

    method MarkExpelled(user: UserId)
      requires user in registrations
      modifies this`teams, this`registrations, this`awards, this`prizeWon
      ensures Now() == Expel(old(Now()), user)
    {
      var registration := registrations[user];
      registrations := registrations[user := registration.(disqualified := true)];
      if registration.team.Some? && registration.team.value < |teams| {
        var team := registration.team.value;
        teams := teams[team := teams[team].(status := TeamDisqualified)];
      }
      awards := S.ReverseHeldOf(awards, user);
      prizeWon := prizeWon - {user};
    }
  }

  /** The purse after a correction has taken back and repaid the prizes. */
  function Repaid(d: Desk, champion: nat, runnerUp: nat, disputed: set<UserId>): Result<S.Purse, S.Failure>
    requires champion < |d.tree.members| && runnerUp < |d.tree.members|
  {
    S.Correct(d.purse, d.prizePool, InIdOrder(d.tree.members[champion]), InIdOrder(d.tree.members[runnerUp]), disputed)
  }

  lemma {:induction false} SubmittedParts(champions: seq<UserId>, runnersUp: seq<UserId>)
    ensures (set u | u in champions) <= Submitted(champions, runnersUp) &&
      (set u | u in runnersUp) <= Submitted(champions, runnersUp)
  {
  }

  /** What follows once winner and loser are known. */
  function AfterResult(d: Desk, key: Key, o: Outcome, disputed: set<UserId>): Result<Desk, Refusal>
    requires key in d.tree.matches && key.round <= d.tree.rounds
    requires |d.tree.members| == |d.tree.teams| && o.winner < |d.tree.teams| && o.loser < |d.tree.teams|
  {
    var next := d.(tree := WithResult(d.tree, key, o));
    if key.round == d.tree.rounds then SettleFinal(next, o.winner, o.loser, disputed)
    else
      match Advance(next.tree, key)
      case Err(why) => Err(ByBracket(why))
      case Ok(t) => Ok(d.(tree := t))
  }

  /** The desk and the answer that a settlement leaves. */
  lemma {:induction false} SettledAs(d: Desk, now: Desk, champion: nat, runnerUp: nat, disputed: set<UserId>,
      paid: Result<S.Purse, S.Failure>)
    requires champion < |d.tree.members| && runnerUp < |d.tree.members| == |d.tree.teams|
    requires paid == S.PayFinalists(d.purse, d.prizePool, InIdOrder(d.tree.members[champion]),
      InIdOrder(d.tree.members[runnerUp]), d.tree.teams[runnerUp].status == TeamDisqualified, disputed)
    requires now == if paid.Err? then d
      else d.(purse := paid.value, registrations := CopyPlacements(d.registrations, d.tree.teams))
    ensures now == Committed(d, SettleFinal(d, champion, runnerUp, disputed))
    ensures WhyRefused(SettleFinal(d, champion, runnerUp, disputed))
         == if paid.Err? then Some(BySettlement(paid.error)) else None
  {
    SettleFinalIs(d, champion, runnerUp, disputed, paid);
  }

  lemma {:induction false} SettleFinalIs(d: Desk, champion: nat, runnerUp: nat, disputed: set<UserId>,
      paid: Result<S.Purse, S.Failure>)
    requires champion < |d.tree.members| && runnerUp < |d.tree.members| == |d.tree.teams|
    requires paid == S.PayFinalists(d.purse, d.prizePool, InIdOrder(d.tree.members[champion]),
      InIdOrder(d.tree.members[runnerUp]), d.tree.teams[runnerUp].status == TeamDisqualified, disputed)
    ensures SettleFinal(d, champion, runnerUp, disputed)
         == if paid.Err? then Err(BySettlement(paid.error))
            else Ok(d.(purse := paid.value, registrations := CopyPlacements(d.registrations, d.tree.teams)))
  {
  }

  /** The first `n` matches of round 1. */
  function FirstMatches(pairs: seq<Pair>, n: nat): map<Key, Match>
    requires n <= |pairs| / 2
  {
    map s: nat | s < n :: Key(1, s) := NewMatch(2 * s, pairs[2 * s], 2 * s + 1, pairs[2 * s + 1])
  }

  lemma {:induction false} OneMoreFirstMatch(pairs: seq<Pair>, n: nat)
    requires n < |pairs| / 2
    ensures Key(1, n) !in FirstMatches(pairs, n)
    ensures FirstMatches(pairs, n + 1)
         == FirstMatches(pairs, n)[Key(1, n) := NewMatch(2 * n, pairs[2 * n], 2 * n + 1, pairs[2 * n + 1])]
  {
  }

  lemma {:induction false} AllFirstMatches(pairs: seq<Pair>)
    ensures FirstMatches(pairs, |pairs| / 2) == FirstRound(pairs)
  {
  }

  lemma {:induction false} EvenField(n: nat)
    requires n >= 4 && IsPowerOfTwo(n)
    ensures n % 2 == 0
  {
    FieldSize(n);
  }

  lemma {:induction false} DrawnPlayers(hash: (nat, UserId) -> nat, seed: nat, players: seq<UserId>)
    ensures |StableDraw(hash, seed, players)| == |players|
    ensures forall t :: 0 <= t < |Teams(StableDraw(hash, seed, players))| ==>
      Teams(StableDraw(hash, seed, players))[t].first in players &&
        Teams(StableDraw(hash, seed, players))[t].second in players
  {
    var draw := StableDraw(hash, seed, players);
    assert |multiset(draw)| == |multiset(players)|;
    forall i | 0 <= i < |draw| ensures draw[i] in players {
      assert draw[i] in multiset(draw);
      assert draw[i] in multiset(players);
    }
  }

  lemma {:induction false} TwoFound(found: seq<UserId>, p: Pair)
    requires NoRepeats(found) && p.first != p.second
    requires forall u :: u in found <==> u in {p.first, p.second}
    ensures |found| == 2 && found[0] in {p.first, p.second} && found[1] in {p.first, p.second} && found[0] != found[1]
  {
    assert p.first in found && p.second in found;
    assert |found| >= 2;
    var third := if |found| > 2 then found[2] else p.first;
    assert third in {p.first, p.second} by { assert third in found; }
    assert found[0] in found && found[1] in found;
  }
}
