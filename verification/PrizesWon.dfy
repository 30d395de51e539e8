/** Prizes that show. */
module PrizesWon {
  // `prizeWon` is written next to every credited award and cleared by corrections and
  // disqualifications; the two are shown to agree over every run.
  import opened Common
  import opened Settlement

  predicate Credits(a: Award, user: UserId, version: nat) {
    a.user == user && a.version == version && a.status == Credited
  }

  ghost predicate CreditedAt(p: Purse, version: nat, user: UserId) {
    exists i :: 0 <= i < |p.awards| && Credits(p.awards[i], user, version)
  }

  ghost predicate ShownPrize(p: Purse, version: nat, user: UserId) {
    user in p.prizeWon && exists i ::
      0 <= i < |p.awards| && Credits(p.awards[i], user, version) && p.awards[i].amount == p.prizeWon[user]
  }

  /** `stripped` are the players disqualified since the last settlement. */
  ghost predicate ShownRight(p: Purse, version: nat, stripped: set<UserId>, user: UserId) {
    if user in p.prizeWon then user !in stripped && ShownPrize(p, version, user)
      else user in stripped || !CreditedAt(p, version, user)
  }

  ghost predicate Shown(p: Purse, version: nat, stripped: set<UserId>) {
    && (forall user {:trigger ShownRight(p, version, stripped, user)} :: ShownRight(p, version, stripped, user))
    && (forall i :: 0 <= i < |p.awards| && p.awards[i].status == Held && p.awards[i].version == version ==>
       p.awards[i].user !in stripped)
  }

  // ---- paying -----------------------------------------------------------------------------

  lemma {:induction false} PayShows(p: Purse, user: UserId, placement: nat, amount: nat, version: nat, disputed: bool)
    requires Shown(p, version, {})
    ensures Pay(p, user, placement, amount, version, disputed).Ok? ==>
      Shown(Pay(p, user, placement, amount, version, disputed).value, version, {})
  {
    if Pay(p, user, placement, amount, version, disputed).Ok? {
      var q := Pay(p, user, placement, amount, version, disputed).value;
      var n := |p.awards|;
      assert !CreditedAt(p, version, user);
      forall u: UserId ensures ShownRight(q, version, {}, u) {
        assert ShownRight(p, version, {}, u);
        OneMoreAward(p, q, version, u);
        assert u == user && !disputed ==> Credits(q.awards[n], u, version);
      }
    }
  }

  lemma {:induction false} OneMoreAward(p: Purse, q: Purse, version: nat, u: UserId)
    requires |q.awards| == |p.awards| + 1 && q.awards[..|p.awards|] == p.awards
    ensures CreditedAt(q, version, u) <==> CreditedAt(p, version, u) || Credits(q.awards[|p.awards|], u, version)
    ensures ShownPrize(p, version, u) && u in q.prizeWon && q.prizeWon[u] == p.prizeWon[u] ==> ShownPrize(q, version, u)
  {
    forall i | 0 <= i < |p.awards| ensures q.awards[i] == p.awards[i] {
      assert q.awards[i] == q.awards[..|p.awards|][i];
    }
    if CreditedAt(p, version, u) {
      var i :| 0 <= i < |p.awards| && Credits(p.awards[i], u, version);
      assert Credits(q.awards[i], u, version);
    }
    if ShownPrize(p, version, u) && u in q.prizeWon && q.prizeWon[u] == p.prizeWon[u] {
      var i :| 0 <= i < |p.awards| && Credits(p.awards[i], u, version) && p.awards[i].amount == p.prizeWon[u];
      assert Credits(q.awards[i], u, version) && q.awards[i].amount == q.prizeWon[u];
    }
  }

  lemma {:induction false} PayTeamShows(p: Purse, team: Finalists, placement: nat, teamPool: nat, version: nat,
      disputed: set<UserId>)
    requires Shown(p, version, {})
    ensures PayTeam(p, team, placement, teamPool, version, disputed).Ok? ==>
      Shown(PayTeam(p, team, placement, teamPool, version, disputed).value, version, {})
  {
    PayShows(p, team.first, placement, FirstShare(teamPool), version, team.first in disputed);
    var one := Pay(p, team.first, placement, FirstShare(teamPool), version, team.first in disputed);
    if one.Ok? { PayShows(one.value, team.second, placement, SecondShare(teamPool), version, team.second in disputed); }
  }

  lemma {:induction false} CleanSlate(p: Purse, version: nat)
    requires p.prizeWon == map[] && forall i :: 0 <= i < |p.awards| ==> p.awards[i].version < version
    ensures Shown(p, version, {})
  {
    forall u: UserId ensures ShownRight(p, version, {}, u) {}
  }

  /** A settlement on a clean slate shows exactly the prizes it credits. */
  lemma {:induction false} SettlementShows(p: Purse, pool: nat, champions: Finalists, runnersUp: Finalists, skip: bool,
      disputed: set<UserId>)
    requires p.prizeWon == map[] && forall i :: 0 <= i < |p.awards| ==> p.awards[i].version <= p.version
    ensures PayFinalists(p, pool, champions, runnersUp, skip, disputed).Ok? ==>
      var q := PayFinalists(p, pool, champions, runnersUp, skip, disputed).value;
        q.version == p.version + 1 && Shown(q, q.version, {})
  {
    CleanSlate(p, p.version + 1);
    BothTeamsShow(p, pool, champions, runnersUp, skip, disputed, p.version + 1);
  }

  lemma {:induction false} BothTeamsShow(p: Purse, pool: nat, champions: Finalists, runnersUp: Finalists, skip: bool,
      disputed: set<UserId>, version: nat)
    requires version == p.version + 1 && Shown(p, version, {})
    ensures PayFinalists(p, pool, champions, runnersUp, skip, disputed).Ok? ==>
      var q := PayFinalists(p, pool, champions, runnersUp, skip, disputed).value;
        q.version == version && Shown(q, version, {})
  {
    var one := PayTeam(p, champions, 1, ChampionPool(pool), version, disputed);
    var two := if one.Err? || skip then one
      else PayTeam(one.value, runnersUp, 2, pool - ChampionPool(pool), version, disputed);
    PayTeamShows(p, champions, 1, ChampionPool(pool), version, disputed);
    if one.Ok? && !skip { PayTeamShows(one.value, runnersUp, 2, pool - ChampionPool(pool), version, disputed); }
    ClosedShows(two, pool, version);
    PayFinalistsIs(p, pool, champions, runnersUp, skip, disputed, one, two);
  }

  lemma {:induction false} ClosedShows(paid: Result<Purse, Failure>, pool: nat, version: nat)
    requires paid.Ok? ==> Shown(paid.value, version, {})
    ensures paid.Ok? ==>
      Closed(paid.value, pool, version).version == version && Shown(Closed(paid.value, pool, version), version, {})
  {
    if paid.Ok? { SameShown(paid.value, Closed(paid.value, pool, version), version, {}); }
  }

  lemma {:induction false} SameShown(p: Purse, q: Purse, version: nat, stripped: set<UserId>)
    requires Shown(p, version, stripped) && q.awards == p.awards && q.prizeWon == p.prizeWon
    ensures Shown(q, version, stripped)
  {
    forall u: UserId ensures ShownRight(q, version, stripped, u) {
      assert ShownRight(p, version, stripped, u);
    }
  }

  lemma {:induction false} CorrectionShows(p: Purse, pool: nat, champions: Finalists, runnersUp: Finalists,
      disputed: set<UserId>)
    requires Sound(p)
    ensures Correct(p, pool, champions, runnersUp, disputed).Ok? ==>
      var q := Correct(p, pool, champions, runnersUp, disputed).value;
        q.version == p.version + 1 && Shown(q, q.version, {})
  {
    ReversingKeepsVersions(p, 0);
    if ReverseCredited(p, 0).Ok? {
      var q := ReverseCredited(p, 0).value;
      SettlementShows(q.(awards := ReverseHeld(q.awards, q.version), prizeWon := map[]), pool, champions, runnersUp,
        false, disputed);
    }
  }

  lemma {:induction false} ReversingKeepsVersions(p: Purse, i: nat)
    requires i <= |p.awards| && forall j :: 0 <= j < |p.awards| ==> p.awards[j].version <= p.version
    ensures ReverseCredited(p, i).Ok? ==>
      var q := ReverseCredited(p, i).value;
        q.version == p.version && forall j :: 0 <= j < |q.awards| ==> q.awards[j].version <= q.version
    decreases |p.awards| - i
  {
    if i < |p.awards| {
      if p.awards[i].version == p.version && p.awards[i].status == Credited {
        if ReverseAt(p, i).Ok? { ReversingKeepsVersions(ReverseAt(p, i).value, i + 1); }
      } else {
        ReversingKeepsVersions(p, i + 1);
      }
    }
  }

  // ---- releasing and disqualifying -----------------------------------------------------------

  /** Crediting one held award shows it. */
  lemma {:induction false} OneReleaseShows(p: Purse, stripped: set<UserId>, i: nat)
    requires Consistent(p) && Shown(p, p.version, stripped) && i < |p.awards| && p.awards[i].status == Held &&
      p.awards[i].version == p.version
    ensures ReleaseAt(p, i).Ok? ==> Shown(ReleaseAt(p, i).value, p.version, stripped)
  {
    if ReleaseAt(p, i).Ok? {
      var q := ReleaseAt(p, i).value;
      var user := p.awards[i].user;
      forall u: UserId ensures ShownRight(q, p.version, stripped, u) {
        assert ShownRight(p, p.version, stripped, u);
        if u == user {
          assert Credits(q.awards[i], u, p.version) && q.awards[i].amount == q.prizeWon[u];
        } else {
          OthersKept(p, q, i, u);
        }
      }
    }
  }

  lemma {:induction false} OthersKept(p: Purse, q: Purse, i: nat, u: UserId)
    requires i < |p.awards| == |q.awards| && q.awards == p.awards[i := q.awards[i]] &&
      p.awards[i].user == q.awards[i].user != u
    requires (u in q.prizeWon <==> u in p.prizeWon) && (u in p.prizeWon ==> q.prizeWon[u] == p.prizeWon[u]) &&
      q.version == p.version
    ensures CreditedAt(q, p.version, u) <==> CreditedAt(p, p.version, u)
    ensures ShownPrize(q, p.version, u) <==> ShownPrize(p, p.version, u)
  {
    forall j | 0 <= j < |p.awards| ensures Credits(q.awards[j], u, p.version) <==> Credits(p.awards[j], u, p.version) {}
    if CreditedAt(p, p.version, u) {
      var j :| 0 <= j < |p.awards| && Credits(p.awards[j], u, p.version);
      assert Credits(q.awards[j], u, p.version);
    }
    if CreditedAt(q, p.version, u) {
      var j :| 0 <= j < |q.awards| && Credits(q.awards[j], u, p.version);
      assert Credits(p.awards[j], u, p.version);
    }
    if ShownPrize(p, p.version, u) {
      var j :| 0 <= j < |p.awards| && Credits(p.awards[j], u, p.version) && p.awards[j].amount == p.prizeWon[u];
      assert j != i && q.awards[j] == p.awards[j];
    }
    if ShownPrize(q, p.version, u) {
      var j :| 0 <= j < |q.awards| && Credits(q.awards[j], u, p.version) && q.awards[j].amount == q.prizeWon[u];
      assert j != i && q.awards[j] == p.awards[j];
    }
  }

  lemma {:induction false} ReleasesShow(p: Purse, user: UserId, stripped: set<UserId>, i: nat)
    requires Consistent(p) && Shown(p, p.version, stripped) && i <= |p.awards|
    requires forall j :: 0 <= j < |p.awards| && p.awards[j].status != Reversed ==> p.awards[j].version == p.version
    ensures ReleaseFrom(p, user, i).Ok? ==>
      ReleaseFrom(p, user, i).value.version == p.version && Shown(ReleaseFrom(p, user, i).value, p.version, stripped)
    decreases |p.awards| - i
  {
    if i < |p.awards| {
      if p.awards[i].user == user && p.awards[i].status == Held {
        OneReleaseShows(p, stripped, i);
        ReleaseKeepsConsistent(p, i);
        if ReleaseAt(p, i).Ok? { ReleasesShow(ReleaseAt(p, i).value, user, stripped, i + 1); }
      } else {
        ReleasesShow(p, user, stripped, i + 1);
      }
    }
  }

  lemma {:induction false} DisqualifyShows(p: Purse, user: UserId, stripped: set<UserId>)
    requires Shown(p, p.version, stripped)
    ensures Shown(Disqualify(p, user), p.version, stripped + {user})
  {
    var q := Disqualify(p, user);
    forall u: UserId ensures ShownRight(q, p.version, stripped + {user}, u) {
      assert ShownRight(p, p.version, stripped, u);
      forall j | 0 <= j < |p.awards|
        ensures Credits(q.awards[j], u, p.version) <==> Credits(p.awards[j], u, p.version)
      {}
      if CreditedAt(q, p.version, u) {
        var j :| 0 <= j < |q.awards| && Credits(q.awards[j], u, p.version);
        assert Credits(p.awards[j], u, p.version);
      }
      if ShownPrize(p, p.version, u) {
        var j :| 0 <= j < |p.awards| && Credits(p.awards[j], u, p.version) && p.awards[j].amount == p.prizeWon[u];
        assert Credits(q.awards[j], u, p.version) && q.awards[j].amount == p.awards[j].amount;
      }
    }
  }

  // ---- every run ---------------------------------------------------------------------------------

  /** The players disqualified since the settlement or correction that counts. */
  ghost function Stripped(p: Purse, ops: seq<Op>): set<UserId> {
    if ops == [] then {}
    else
      var before, op := Run(p, ops[..|ops| - 1]), ops[|ops| - 1];
      if op.DisqualifyOp? then Stripped(p, ops[..|ops| - 1]) + {op.user}
      else if Step(before, op).version != before.version then {}
      else Stripped(p, ops[..|ops| - 1])
  }

  lemma {:induction false} StepShows(p: Purse, op: Op, stripped: set<UserId>)
    requires Sound(p) && Shown(p, p.version, stripped) && (p.version == 0 ==> p.prizeWon == map[])
    ensures var q := Step(p, op);
      var after := if op.DisqualifyOp? then stripped + {op.user} else if q.version != p.version then {} else stripped;
      Shown(q, q.version, after) && (q.version == 0 ==> q.prizeWon == map[])
  {
    AwardsMeanSettled(p);
    match op {
      case SettleOp(pool, champions, runnersUp, skip, disputed) =>
        if p.version == 0 { SettlementShows(p, pool, champions, runnersUp, skip, disputed); }
      case CorrectOp(pool, champions, runnersUp, disputed) => CorrectionShows(p, pool, champions, runnersUp, disputed);
      case ReleaseOp(user, stillOpen) =>
        ReleasesShow(p, user, stripped, 0);
        if ReleaseFrom(p, user, 0).Ok? {
          var r := ReleaseFrom(p, user, 0).value;
          SameShown(r, r.(settled := true), p.version, stripped);
        }
      case DisqualifyOp(user) => DisqualifyShows(p, user, stripped);
      case MoveOp(entry) => SameShown(p, Move(p, entry), p.version, stripped);
    }
  }

  /**
   * Over every run a player's registration shows a prize if and only if the player
   * has a credited award of the current settlement and has not been disqualified
   * since it, and the prize shown is the amount of that award.
   */
  lemma {:induction false} EveryRunShowsPrizes(p: Purse, ops: seq<Op>, user: UserId)
    requires Fresh(p) && p.prizeWon == map[] && user in p.book.balances
    ensures var q := Run(p, ops);
      && (user in q.prizeWon <==> CreditedAt(q, q.version, user) && user !in Stripped(p, ops))
      && (user in q.prizeWon ==> ShownPrize(q, q.version, user))
  {
    RunShows(p, ops, user);
    assert ShownRight(Run(p, ops), Run(p, ops).version, Stripped(p, ops), user);
  }

  lemma {:induction false} RunShows(p: Purse, ops: seq<Op>, user: UserId)
    requires Fresh(p) && p.prizeWon == map[] && user in p.book.balances
    ensures Shown(Run(p, ops), Run(p, ops).version, Stripped(p, ops)) &&
      (Run(p, ops).version == 0 ==> Run(p, ops).prizeWon == map[])
    decreases |ops|
  {
    if ops == [] {
      forall u: UserId ensures ShownRight(p, p.version, {}, u) {}
    } else {
      var init := ops[..|ops| - 1];
      RunShows(p, init, user);
      EveryRun(p, init, user);
      StepShows(Run(p, init), ops[|ops| - 1], Stripped(p, init));
    }
  }
}
