/** How much each finalist gets, and how a correction overdraws a wallet. */
module Overdrawn {
  import opened Common
  import L = Ledger
  import opened Settlement

  // ---- shares --------------------------------------------------------------------------

  /** What a team's prize puts into a player's wallet: nothing while a dispute holds it. */
  function TeamShare(team: Finalists, teamPool: nat, disputed: set<UserId>, user: UserId): nat {
    if user in disputed then 0
    else if user == team.first then FirstShare(teamPool)
    else if user == team.second then SecondShare(teamPool)
    else 0
  }

  function Share(pool: nat, champions: Finalists, runnersUp: Finalists, skip: bool, disputed: set<UserId>,
      user: UserId): nat {
    TeamShare(champions, ChampionPool(pool), disputed, user)
    + if skip then 0 else TeamShare(runnersUp, pool - ChampionPool(pool), disputed, user)
  }

  lemma {:induction false} PayMoves(p: Purse, user: UserId, placement: nat, amount: nat, version: nat, disputed: bool,
      u: UserId)
    requires u in p.book.balances && Pay(p, user, placement, amount, version, disputed).Ok?
    ensures u in Pay(p, user, placement, amount, version, disputed).value.book.balances
    ensures Pay(p, user, placement, amount, version, disputed).value.book.balances[u]
         == p.book.balances[u] + if u == user && !disputed then amount else 0
  {
  }

  lemma {:induction false} TeamMoves(p: Purse, team: Finalists, placement: nat, teamPool: nat, version: nat,
      disputed: set<UserId>, u: UserId)
    requires u in p.book.balances && team.first != team.second &&
      PayTeam(p, team, placement, teamPool, version, disputed).Ok?
    ensures u in PayTeam(p, team, placement, teamPool, version, disputed).value.book.balances
    ensures PayTeam(p, team, placement, teamPool, version, disputed).value.book.balances[u]
         == p.book.balances[u] + TeamShare(team, teamPool, disputed, u)
  {
    var one := Pay(p, team.first, placement, FirstShare(teamPool), version, team.first in disputed).value;
    PayMoves(p, team.first, placement, FirstShare(teamPool), version, team.first in disputed, u);
    PayMoves(one, team.second, placement, SecondShare(teamPool), version, team.second in disputed, u);
  }

  /** A settlement credits every player exactly the share of the player's place. */
  lemma {:induction false} SettlementPaysShares(p: Purse, pool: nat, champions: Finalists, runnersUp: Finalists,
      skip: bool, disputed: set<UserId>, u: UserId)
    requires u in p.book.balances && FourPlayers(p, champions, runnersUp)
    requires PayFinalists(p, pool, champions, runnersUp, skip, disputed).Ok?
    ensures u in PayFinalists(p, pool, champions, runnersUp, skip, disputed).value.book.balances
    ensures PayFinalists(p, pool, champions, runnersUp, skip, disputed).value.book.balances[u]
         == p.book.balances[u] + Share(pool, champions, runnersUp, skip, disputed, u)
  {
    var version, rest := p.version + 1, pool - ChampionPool(pool);
    var one := PayTeam(p, champions, 1, ChampionPool(pool), version, disputed);
    TeamMoves(p, champions, 1, ChampionPool(pool), version, disputed, u);
    if !skip { TeamMoves(one.value, runnersUp, 2, rest, version, disputed, u); }
  }

  // ---- corrections -----------------------------------------------------------------------

  /** A correction leaves every player with the money from elsewhere and the new share. */
  lemma {:induction false} CorrectionPaysShares(p: Purse, pool: nat, champions: Finalists, runnersUp: Finalists,
      disputed: set<UserId>, u: UserId)
    requires Sound(p) && FourPlayers(p, champions, runnersUp) && u in p.book.balances
    requires Correct(p, pool, champions, runnersUp, disputed).Ok?
    ensures u in Correct(p, pool, champions, runnersUp, disputed).value.book.balances
    ensures Correct(p, pool, champions, runnersUp, disputed).value.book.balances[u]
         == Outside(p, u) + Share(pool, champions, runnersUp, false, disputed, u)
  {
    TakenBack(p);
    var q := ReverseCredited(p, 0).value;
    var r := q.(awards := ReverseHeld(q.awards, q.version), prizeWon := map[]);
    assert Outside(r, u) == Outside(p, u);
    SettlementPaysShares(r, pool, champions, runnersUp, false, disputed, u);
  }

  /**
   * An accepted correction leaves a wallet overdrawn if and only if its owner has spent
   * more than the money from elsewhere and gets no new credit.
   */
  lemma {:induction false} CorrectionOverdrawsExactlyWhen(p: Purse, pool: nat, champions: Finalists,
      runnersUp: Finalists, disputed: set<UserId>, u: UserId)
    requires Sound(p) && FourPlayers(p, champions, runnersUp) && u in p.book.balances
    requires Correct(p, pool, champions, runnersUp, disputed).Ok?
    ensures u in Correct(p, pool, champions, runnersUp, disputed).value.book.balances
    ensures Correct(p, pool, champions, runnersUp, disputed).value.book.balances[u] < 0 <==>
      && Outside(p, u) < 0
      && (u in disputed || u !in {champions.first, champions.second, runnersUp.first, runnersUp.second})
  {
    CorrectSound(p, pool, champions, runnersUp, disputed);
    CorrectionPaysShares(p, pool, champions, runnersUp, disputed, u);
  }

  // ---- a credit refused ---------------------------------------------------------------------

  function Spend(user: UserId, amount: nat): L.Entry<Ref> {
    L.Entry(user, L.Purchase, 0 - amount, None, false)
  }

  /** Only `user` has spent anything from `p` to `q`. */
  ghost predicate OthersKept(p: Purse, q: Purse, user: UserId) {
    && q.book.balances.Keys == p.book.balances.Keys
    && forall u {:trigger Outside(q, u)} :: u in p.book.balances && u != user ==> Outside(q, u) == Outside(p, u)
  }

  lemma {:induction false} SpendsAll(p: Purse, user: UserId, amount: nat)
    requires Sound(p) && user in p.book.balances && p.book.balances[user] == amount
    ensures var q := Move(p, Spend(user, amount));
      Sound(q) && q.version == p.version && OthersKept(p, q, user) && Outside(q, user) == Outside(p, user) - amount
  {
    MoveSound(p, Spend(user, amount));
  }

  lemma {:induction false} ThreeSteps(p: Purse, a: Op, b: Op, c: Op)
    ensures Run(p, [a, b, c]) == Step(Step(Step(p, a), b), c)
  {
    assert [a, b, c][..2] == [a, b] && [a, b][..1] == [a] && [a][..0] == [];
    assert Run(p, [a, b]) == Step(Run(p, [a]), b);
    assert Run(p, [a]) == Step(Run(p, []), a);
  }

  /** Six players who can take a settlement and then a correction in favour of `others`. */
  ghost predicate CanBeCorrected(p: Purse, champions: Finalists, runnersUp: Finalists, others: Finalists) {
    && Fresh(p) && FourPlayers(p, champions, runnersUp) && FourPlayers(p, others, runnersUp)
    && champions.first !in {others.first, others.second}
    && forall u ::
       u in {champions.first, champions.second, runnersUp.first, runnersUp.second, others.first, others.second} ==>
         p.book.balances[u] >= 0
  }

  lemma {:induction false} FirstSettlement(p: Purse, pool: nat, champions: Finalists, runnersUp: Finalists,
      others: Finalists)
    requires CanBeCorrected(p, champions, runnersUp, others)
    ensures var q := Step(p, SettleOp(pool, champions, runnersUp, false, {}));
      && Sound(q) && q.version == 1 && OutsideKept(p, q)
      && q.book.balances[champions.first] == p.book.balances[champions.first] + FirstShare(ChampionPool(pool))
  {
    FreshIsSound(p);
    PayFinalistsSound(p, pool, champions, runnersUp, false, {});
    SettlementPaysShares(p, pool, champions, runnersUp, false, {}, champions.first);
  }

  /** The first champion spends wallet and prize before the correction takes the prize back. */
  lemma {:induction false} SpentBeforeCorrection(p: Purse, pool: nat, champions: Finalists, runnersUp: Finalists,
      others: Finalists)
      returns (spend: Op, q: Purse)
    requires CanBeCorrected(p, champions, runnersUp, others)
    ensures spend.MoveOp? && q == Step(Step(p, SettleOp(pool, champions, runnersUp, false, {})), spend)
    ensures Sound(q) && q.version == 1 && OthersKept(p, q, champions.first)
    ensures champions.first in q.book.balances && Outside(q, champions.first) == 0 - FirstShare(ChampionPool(pool))
  {
    FirstSettlement(p, pool, champions, runnersUp, others);
    var settled := Step(p, SettleOp(pool, champions, runnersUp, false, {}));
    spend, q := SpentAfter(p, settled, champions.first, FirstShare(ChampionPool(pool)));
  }

  lemma {:induction false} SpentAfter(p: Purse, settled: Purse, user: UserId, share: nat) returns (spend: Op, q: Purse)
    requires Sound(settled) && OutsideKept(p, settled) && user in p.book.balances && p.awards == []
    requires p.book.balances[user] >= 0 && settled.book.balances[user] == p.book.balances[user] + share
    ensures spend.MoveOp? && q == Step(settled, spend) && Sound(q) && q.version == settled.version &&
      OthersKept(p, q, user)
    ensures user in q.book.balances && Outside(q, user) == 0 - share
  {
    spend, q := MoveOp(Spend(user, p.book.balances[user] + share)),
      Move(settled, Spend(user, p.book.balances[user] + share));
    SpendsAll(settled, user, p.book.balances[user] + share);
    assert Outside(settled, user) == Outside(p, user);
    KeptTwice(p, settled, q, user);
  }

  lemma {:induction false} KeptTwice(p: Purse, q: Purse, r: Purse, user: UserId)
    requires OutsideKept(p, q) && OthersKept(q, r, user)
    ensures OthersKept(p, r, user)
  {
    forall u | u in p.book.balances && u != user ensures Outside(r, u) == Outside(p, u) {
      assert Outside(q, u) == Outside(p, u);
    }
  }

  /**
   * A run from a fresh tournament after which a credit is refused: the champion spends
   * everything, a correction takes the prize back, and the overdrawn wallet then refuses
   * every credit, however large.
   */
  lemma {:induction false} SpentPrizeBlocksCredits(p: Purse, pool: nat, champions: Finalists, runnersUp: Finalists,
      others: Finalists)
      returns (ops: seq<Op>)
    requires CanBeCorrected(p, champions, runnersUp, others) && pool >= 3
    ensures var q := Run(p, ops); champions.first in q.book.balances && q.book.balances[champions.first] < 0
    ensures forall kind, amount: nat, reference ::
      L.Record(Run(p, ops).book, L.Entry(champions.first, kind, amount, reference, false)) == Err(L.InsufficientBalance)
  {
    var spend, spent := SpentBeforeCorrection(p, pool, champions, runnersUp, others);
    var settle, correct := SettleOp(pool, champions, runnersUp, false, {}), CorrectOp(pool, others, runnersUp, {});
    ops := [settle, spend, correct];
    ThreeSteps(p, settle, spend, correct);
    CorrectSound(spent, pool, others, runnersUp, {});
    CorrectionOverdrawsExactlyWhen(spent, pool, others, runnersUp, {}, champions.first);
  }
}
