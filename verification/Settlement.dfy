/** Prize settlement of a tournament. */
module Settlement {
  // The award rows, the ledger rows that pay and reverse them, and what holds
  // between the two over every run.
  import opened Common
  import opened Ledger

  /** The unique ledger references; `OtherRef` is any reference of another subsystem. */
  datatype Ref =
    | PrizeRef(user: UserId, version: nat)
    | ReversalRef(user: UserId, version: nat)
    | OtherRef(id: nat)

  datatype AwardStatus = Credited | Held | Reversed

  /** `credit` and `reversal` are the positions of the ledger rows the award points at. */
  datatype Award = Award(
    user: UserId,
    placement: nat,
    amount: nat,
    version: nat,
    status: AwardStatus,
    credit: Option<nat>,
    reversal: Option<nat>)

  /** `pool` is the pool of the current settlement, `settled` is `settledAt` being set. */
  datatype Purse = Purse(
    pool: nat,
    version: nat,
    settled: bool,
    awards: seq<Award>,
    book: Book<Ref>,
    prizeWon: map<UserId, nat>)

  datatype Failure = AwardExists | NotRecorded(refusal: Refusal)

  // ---- prize arithmetic -------------------------------------------------------

  /** 70% of the pool, rounded down to the cent. */
  function ChampionPool(pool: nat): nat {
    pool * 70 / 100
  }

  function FirstShare(teamPool: nat): nat {
    teamPool / 2
  }

  function SecondShare(teamPool: nat): nat {
    teamPool - FirstShare(teamPool)
  }

  /** The four shares are the whole pool; team mates differ by at most a cent; 70% is met to the cent. */
  lemma {:induction false} SharesSplitThePool(pool: nat)
    ensures var top := ChampionPool(pool); var rest := pool - top;
      && 0 <= rest
      && FirstShare(top) + SecondShare(top) + FirstShare(rest) + SecondShare(rest) == pool
      && 0 <= SecondShare(top) - FirstShare(top) <= 1
      && 0 <= SecondShare(rest) - FirstShare(rest) <= 1
      && 100 * top <= 70 * pool < 100 * (top + 1)
  {
  }

  // ---- elementary steps ---------------------------------------------------------

  predicate HasAward(awards: seq<Award>, user: UserId, version: nat) {
    exists i :: 0 <= i < |awards| && awards[i].user == user && awards[i].version == version
  }

  function PrizeEntry(user: UserId, amount: nat, version: nat): Entry<Ref> {
    Entry(user, Prize, amount, Some(PrizeRef(user, version)), false)
  }

  function ReversalEntry(a: Award): Entry<Ref> {
    Entry(a.user, Prize, 0 - a.amount, Some(ReversalRef(a.user, a.version)), true)
  }

  /** One finalist: hold the prize while a dispute is open, otherwise credit it. */
  function Pay(p: Purse, user: UserId, placement: nat, amount: nat, version: nat,
      disputed: bool): Result<Purse, Failure> {
    if HasAward(p.awards, user, version) then Err(AwardExists)
    else if disputed then
      Ok(p.(awards := p.awards + [Award(user, placement, amount, version, Held, None, None)]))
    else
      match Record(p.book, PrizeEntry(user, amount, version))
      case Err(why) => Err(NotRecorded(why))
      case Ok(book) =>
        Ok(p.(awards := p.awards + [Award(user, placement, amount, version, Credited, Some(|p.book.rows|), None)],
              book := book,
              prizeWon := p.prizeWon[user := amount]))
  }

  /** Takes one credited award back, even from a spent balance. */
  function ReverseAt(p: Purse, i: nat): Result<Purse, Failure>
    requires i < |p.awards|
  {
    match Record(p.book, ReversalEntry(p.awards[i]))
    case Err(why) => Err(NotRecorded(why))
    case Ok(book) =>
      Ok(p.(awards := p.awards[i := p.awards[i].(status := Reversed, reversal := Some(|p.book.rows|))], book := book))
  }

  function ReleaseAt(p: Purse, i: nat): Result<Purse, Failure>
    requires i < |p.awards|
  {
    var a := p.awards[i];
    match Record(p.book, PrizeEntry(a.user, a.amount, a.version))
    case Err(why) => Err(NotRecorded(why))
    case Ok(book) =>
      Ok(p.(awards := p.awards[i := a.(status := Credited, credit := Some(|p.book.rows|))],
            book := book,
            prizeWon := p.prizeWon[a.user := a.amount]))
  }

  // ---- operations -----------------------------------------------------------------

  datatype Finalists = Finalists(first: UserId, second: UserId)

  /** The two players of a finalist team, in user-id order: half rounded down, then the rest. */
  function PayTeam(p: Purse, team: Finalists, placement: nat, teamPool: nat, version: nat,
      disputed: set<UserId>): Result<Purse, Failure> {
    match Pay(p, team.first, placement, FirstShare(teamPool), version, team.first in disputed)
    case Err(why) => Err(why)
    case Ok(q) => Pay(q, team.second, placement, SecondShare(teamPool), version, team.second in disputed)
  }

  predicate AnyHeld(awards: seq<Award>) {
    exists i :: 0 <= i < |awards| && awards[i].status == Held
  }

  predicate AnyHeldAt(awards: seq<Award>, version: nat) {
    exists i :: 0 <= i < |awards| && awards[i].status == Held && awards[i].version == version
  }

  function Closed(p: Purse, pool: nat, version: nat): Purse {
    p.(pool := pool, version := version, settled := !AnyHeldAt(p.awards, version))
  }

  /** The prizes of both finalist teams at a new version; a disqualified runner-up is skipped. */
  function PayBoth(p: Purse, pool: nat, champions: Finalists, runnersUp: Finalists, skipRunnersUp: bool,
      disputed: set<UserId>): Result<Purse, Failure> {
    var version := p.version + 1;
    match PayTeam(p, champions, 1, ChampionPool(pool), version, disputed)
    case Err(why) => Err(why)
    case Ok(q) =>
      if skipRunnersUp then Ok(q) else PayTeam(q, runnersUp, 2, pool - ChampionPool(pool), version, disputed)
  }

  function PayFinalists(p: Purse, pool: nat, champions: Finalists, runnersUp: Finalists, skipRunnersUp: bool,
      disputed: set<UserId>): Result<Purse, Failure> {
    match PayBoth(p, pool, champions, runnersUp, skipRunnersUp, disputed)
    case Err(why) => Err(why)
    case Ok(q) => Ok(Closed(q, pool, p.version + 1))
  }

  /** `settle`, called once when the final has been applied. */
  function Settle(p: Purse, pool: nat, champions: Finalists, runnersUp: Finalists, skipRunnersUp: bool,
      disputed: set<UserId>): Result<Purse, Failure> {
    PayFinalists(p, pool, champions, runnersUp, skipRunnersUp, disputed)
  }

  /** Reverses the credited awards of the current version at positions from `i` on. */
  function ReverseCredited(p: Purse, i: nat): Result<Purse, Failure>
    requires i <= |p.awards|
    decreases |p.awards| - i
  {
    if i == |p.awards| then Ok(p)
    else if p.awards[i].version == p.version && p.awards[i].status == Credited then
      match ReverseAt(p, i)
      case Err(why) => Err(why)
      case Ok(q) => ReverseCredited(q, i + 1)
    else ReverseCredited(p, i + 1)
  }

  /** `updateMany`: held awards selected by `who` and `version` are reversed; no money has moved. */
  function ReverseHeld(awards: seq<Award>, version: nat): seq<Award> {
    seq(|awards|, i requires 0 <= i < |awards| =>
      if awards[i].status == Held && awards[i].version == version then awards[i].(status := Reversed) else awards[i])
  }

  function ReverseHeldOf(awards: seq<Award>, user: UserId): seq<Award> {
    seq(|awards|, i requires 0 <= i < |awards| =>
      if awards[i].status == Held && awards[i].user == user then awards[i].(status := Reversed) else awards[i])
  }

  /** `correctResults` after validation: take everything back, then settle again at the next version. */
  function Correct(p: Purse, pool: nat, champions: Finalists, runnersUp: Finalists,
      disputed: set<UserId>): Result<Purse, Failure> {
    match ReverseCredited(p, 0)
    case Err(why) => Err(why)
    case Ok(q) =>
      PayFinalists(q.(awards := ReverseHeld(q.awards, q.version), prizeWon := map[]), pool, champions, runnersUp, false,
        disputed)
  }

  function ReleaseFrom(p: Purse, user: UserId, i: nat): Result<Purse, Failure>
    requires i <= |p.awards|
    decreases |p.awards| - i
  {
    if i == |p.awards| then Ok(p)
    else if p.awards[i].user == user && p.awards[i].status == Held then
      match ReleaseAt(p, i)
      case Err(why) => Err(why)
      case Ok(q) => ReleaseFrom(q, user, i + 1)
    else ReleaseFrom(p, user, i + 1)
  }

  /** `releaseHeldAwards`; with another dispute still open it does nothing. */
  function Release(p: Purse, user: UserId, stillOpen: bool): Result<Purse, Failure> {
    if stillOpen then Ok(p)
    else
      match ReleaseFrom(p, user, 0)
      case Err(why) => Err(why)
      case Ok(q) => Ok(if AnyHeld(q.awards) then q else q.(settled := true))
  }

  /** The award half of `disqualifyPlayer`. */
  function Disqualify(p: Purse, user: UserId): Purse {
    p.(awards := ReverseHeldOf(p.awards, user), prizeWon := p.prizeWon - {user})
  }

  /** Any other movement of a player's money; it can use no prize reference. */
  function Move(p: Purse, entry: Entry<Ref>): Purse {
    if entry.reference.Some? && !entry.reference.value.OtherRef? then p
    else match Record(p.book, entry) case Err(_) => p case Ok(book) => p.(book := book)
  }

  // ---- what the two tables say about each other ----------------------------------------

  predicate PrizeRow(r: Row<Ref>) {
    r.reference.Some? && (r.reference.value.PrizeRef? || r.reference.value.ReversalRef?)
  }

  /** What the prize and reversal rows of a user add up to. */
  function Net(rows: seq<Row<Ref>>, user: UserId): int {
    if rows == [] then 0
    else
      var last := rows[|rows| - 1];
      Net(rows[..|rows| - 1], user) + (if last.user == user && PrizeRow(last) then last.amount else 0)
  }

  function Live(awards: seq<Award>): nat {
    if awards == [] then 0
    else
      var last := awards[|awards| - 1];
      Live(awards[..|awards| - 1]) + (if last.status != Reversed then last.amount else 0)
  }

  function CreditedTo(awards: seq<Award>, user: UserId): nat {
    if awards == [] then 0
    else
      var last := awards[|awards| - 1];
      CreditedTo(awards[..|awards| - 1], user) +
        (if last.user == user && last.status == Credited then last.amount else 0)
  }

  ghost predicate PaidBy(rows: seq<Row<Ref>>, a: Award, k: nat) {
    k < |rows| && rows[k].user == a.user && rows[k].amount == a.amount &&
      rows[k].reference == Some(PrizeRef(a.user, a.version))
  }

  ghost predicate TakenBackBy(rows: seq<Row<Ref>>, a: Award, k: nat) {
    k < |rows| && rows[k].user == a.user && rows[k].amount == 0 - a.amount &&
      rows[k].reference == Some(ReversalRef(a.user, a.version))
  }

  /** An award's status agrees with the ledger rows it points at. */
  ghost predicate Backed(rows: seq<Row<Ref>>, a: Award) {
    match a.status
    case Credited => a.credit.Some? && PaidBy(rows, a, a.credit.value) && a.reversal == None
    case Held => a.credit == None && a.reversal == None
    case Reversed =>
      || (a.credit == None && a.reversal == None)
      || (a.credit.Some? && PaidBy(rows, a, a.credit.value) && a.reversal.Some? &&
         TakenBackBy(rows, a, a.reversal.value))
  }

  /** A prize row belongs to the one award that points at it. */
  ghost predicate Explained(awards: seq<Award>, r: Row<Ref>, k: nat) {
    (r.reference.Some? && !r.reference.value.OtherRef?) ==>
      exists i :: 0 <= i < |awards| && awards[i].user == r.reference.value.user &&
        awards[i].version == r.reference.value.version
        && (if r.reference.value.PrizeRef? then awards[i].credit == Some(k) else awards[i].reversal == Some(k))
  }

  predicate SameKey(a: Award, b: Award) {
    a.user == b.user && a.version == b.version
  }

  /** The table's unique constraint on (user, version). */
  ghost predicate OnePerVersion(awards: seq<Award>) {
    forall i, j {:trigger SameKey(awards[i], awards[j])} :: 0 <= i < j < |awards| ==> !SameKey(awards[i], awards[j])
  }

  ghost predicate Consistent(p: Purse) {
    && (forall i {:trigger Backed(p.book.rows, p.awards[i])} :: 0 <= i < |p.awards| ==>
       Backed(p.book.rows, p.awards[i]))
    && (forall k: nat {:trigger Explained(p.awards, p.book.rows[k], k)} :: k < |p.book.rows| ==>
       Explained(p.awards, p.book.rows[k], k))
    && OnePerVersion(p.awards)
    && (forall i :: 0 <= i < |p.awards| ==> p.awards[i].user in p.book.balances)
    && (forall u: UserId {:trigger Net(p.book.rows, u)} :: Net(p.book.rows, u) == CreditedTo(p.awards, u))
  }

  /** What holds between operations. */
  ghost predicate Sound(p: Purse) {
    && Consistent(p)
    && (forall i :: 0 <= i < |p.awards| ==> 1 <= p.awards[i].version <= p.version)
    && (forall i :: 0 <= i < |p.awards| && p.awards[i].status != Reversed ==> p.awards[i].version == p.version)
    && Live(p.awards) <= p.pool
    && (p.settled ==> !AnyHeld(p.awards))
  }

  /** A player's money apart from this tournament's credited prizes. */
  function Outside(p: Purse, user: UserId): int
    requires user in p.book.balances
  {
    p.book.balances[user] - CreditedTo(p.awards, user)
  }

  ghost predicate OutsideKept(p: Purse, q: Purse) {
    && q.book.balances.Keys == p.book.balances.Keys
    && forall u {:trigger Outside(q, u)} :: u in p.book.balances ==> Outside(q, u) == Outside(p, u)
  }

  lemma {:induction false} OutsideKeptOn(p: Purse, q: Purse, r: Purse)
    requires OutsideKept(p, q) && OutsideKept(q, r)
    ensures OutsideKept(p, r)
  {
    forall u: UserId | u in p.book.balances ensures Outside(r, u) == Outside(p, u) {
      assert Outside(q, u) == Outside(p, u);
    }
  }

  // ---- sums over one changed row ---------------------------------------------------------

  lemma {:induction false} NetAppend(rows: seq<Row<Ref>>, row: Row<Ref>, user: UserId)
    ensures Net(rows + [row], user) == Net(rows, user) + (if row.user == user && PrizeRow(row) then row.amount else 0)
  {
    assert (rows + [row])[..|rows|] == rows;
  }

  lemma {:induction false} SumsAppend(awards: seq<Award>, a: Award, user: UserId)
    ensures CreditedTo(awards + [a], user)
      == CreditedTo(awards, user) + (if a.user == user && a.status == Credited then a.amount else 0)
    ensures Live(awards + [a]) == Live(awards) + (if a.status != Reversed then a.amount else 0)
  {
    assert (awards + [a])[..|awards|] == awards;
  }

  lemma {:induction false} SumsUpdate(awards: seq<Award>, i: nat, a: Award, user: UserId)
    requires i < |awards|
    ensures var next := awards[i := a];
      && CreditedTo(next, user)
           == CreditedTo(awards, user)
              - (if awards[i].user == user && awards[i].status == Credited then awards[i].amount else 0)
              + (if a.user == user && a.status == Credited then a.amount else 0)
      && Live(next) == Live(awards) - (if awards[i].status != Reversed then awards[i].amount else 0)
                                    + (if a.status != Reversed then a.amount else 0)
    decreases |awards|
  {
    var next := awards[i := a];
    if i < |awards| - 1 {
      assert next[..|next| - 1] == awards[..|awards| - 1][i := a];
      SumsUpdate(awards[..|awards| - 1], i, a, user);
    } else {
      assert next[..|next| - 1] == awards[..|awards| - 1];
    }
  }

  // ---- elementary steps keep the tables consistent ------------------------------------------

  lemma {:induction false} NoPrizeRow(p: Purse, user: UserId, version: nat)
    requires Consistent(p)
    requires forall i :: 0 <= i < |p.awards| && p.awards[i].user == user && p.awards[i].version == version ==>
      p.awards[i].credit == None
    ensures !HasReference(p.book.rows, PrizeRef(user, version))
  {
    forall k | 0 <= k < |p.book.rows| ensures p.book.rows[k].reference != Some(PrizeRef(user, version)) {
      assert Explained(p.awards, p.book.rows[k], k);
    }
  }

  lemma {:induction false} NoReversalRow(p: Purse, user: UserId, version: nat)
    requires Consistent(p)
    requires forall i :: 0 <= i < |p.awards| && p.awards[i].user == user && p.awards[i].version == version ==>
      p.awards[i].reversal == None
    ensures !HasReference(p.book.rows, ReversalRef(user, version))
  {
    forall k | 0 <= k < |p.book.rows| ensures p.book.rows[k].reference != Some(ReversalRef(user, version)) {
      assert Explained(p.awards, p.book.rows[k], k);
    }
  }

  /** Old rows keep their explanation when rows are appended and awards only gain pointers. */
  lemma {:induction false} StillExplained(old_: seq<Award>, new_: seq<Award>, r: Row<Ref>, k: nat)
    requires Explained(old_, r, k)
    requires |old_| <= |new_|
    requires forall i :: 0 <= i < |old_| ==>
      && new_[i].user == old_[i].user && new_[i].version == old_[i].version
      && (old_[i].credit.Some? ==> new_[i].credit == old_[i].credit)
      && (old_[i].reversal.Some? ==> new_[i].reversal == old_[i].reversal)
    ensures Explained(new_, r, k)
  {
  }

  /** Adding one award, with at most one new prize row that pays it. */
  lemma {:induction false} AppendKeepsConsistent(p: Purse, a: Award, q: Purse)
    requires Consistent(p) && a.user in p.book.balances && !HasAward(p.awards, a.user, a.version)
    requires q.awards == p.awards + [a] && q.book.balances.Keys == p.book.balances.Keys
    requires a.status == Held ==> a.credit == None && a.reversal == None && q.book.rows == p.book.rows
    requires a.status == Credited ==>
      && |q.book.rows| == |p.book.rows| + 1 && q.book.rows[..|p.book.rows|] == p.book.rows
      && a.credit == Some(|p.book.rows|) && PaidBy(q.book.rows, a, |p.book.rows|) && a.reversal == None
    requires a.status != Reversed
    ensures Consistent(q)
  {
    forall i | 0 <= i < |q.awards| ensures Backed(q.book.rows, q.awards[i]) {
      if i < |p.awards| { assert Backed(p.book.rows, p.awards[i]); }
    }
    forall k: nat | k < |q.book.rows| ensures Explained(q.awards, q.book.rows[k], k) {
      if k < |p.book.rows| {
        assert Explained(p.awards, p.book.rows[k], k);
        StillExplained(p.awards, q.awards, q.book.rows[k], k);
      } else {
        assert q.awards[|p.awards|] == a;
      }
    }
    forall u: UserId ensures Net(q.book.rows, u) == CreditedTo(q.awards, u) {
      assert Net(p.book.rows, u) == CreditedTo(p.awards, u);
      SumsAppend(p.awards, a, u);
      if a.status == Credited {
        assert q.book.rows == p.book.rows + [q.book.rows[|p.book.rows|]];
        NetAppend(p.book.rows, q.book.rows[|p.book.rows|], u);
      }
    }
  }

  /** `q` is `p` with one new award and, unless it is held, its money and prize row. */
  ghost predicate OnePaid(p: Purse, a: Award, q: Purse)
    requires a.user in p.book.balances
  {
    && q.awards == p.awards + [a] && a.reversal == None && q.version == p.version && a.status != Reversed
    && q.book.balances
       == p.book.balances[a.user := p.book.balances[a.user] + (if a.status == Credited then a.amount else 0)]
    && (a.status == Held ==> a.credit == None && q.book.rows == p.book.rows)
    && (a.status == Credited ==>
          && |q.book.rows| == |p.book.rows| + 1 && q.book.rows[..|p.book.rows|] == p.book.rows
          && a.credit == Some(|p.book.rows|) && PaidBy(q.book.rows, a, |p.book.rows|))
  }

  lemma {:induction false} PayIsOnePaid(p: Purse, user: UserId, placement: nat, amount: nat, version: nat,
      disputed: bool)
    requires user in p.book.balances && !HasAward(p.awards, user, version)
    requires !HasReference(p.book.rows, PrizeRef(user, version))
    ensures Pay(p, user, placement, amount, version, disputed).Ok? <==> disputed || p.book.balances[user] >= 0
    ensures Pay(p, user, placement, amount, version, disputed).Ok? ==>
      var q := Pay(p, user, placement, amount, version, disputed).value;
      && |q.awards| == |p.awards| + 1 && q.awards[|p.awards|].user == user
      && q.awards[|p.awards|].version == version && q.awards[|p.awards|].amount == amount
      && q.awards[|p.awards|].status == (if disputed then Held else Credited)
      && OnePaid(p, q.awards[|p.awards|], q)
  {
    if disputed {
      assert p.book.balances[user := p.book.balances[user] + 0] == p.book.balances;
    }
  }

  lemma {:induction false} OnePaidKeepsOutside(p: Purse, a: Award, q: Purse)
    requires a.user in p.book.balances && OnePaid(p, a, q)
    ensures OutsideKept(p, q) && Live(q.awards) == Live(p.awards) + a.amount
  {
    SumsAppend(p.awards, a, a.user);
    forall u: UserId | u in p.book.balances ensures Outside(q, u) == Outside(p, u) { SumsAppend(p.awards, a, u); }
  }

  /** A finalist not yet paid at this version is paid exactly when held or not overdrawn. */
  lemma {:induction false} PayKeepsConsistent(p: Purse, user: UserId, placement: nat, amount: nat, version: nat,
      disputed: bool)
    requires Consistent(p) && user in p.book.balances && !HasAward(p.awards, user, version)
    ensures Pay(p, user, placement, amount, version, disputed).Ok? <==> disputed || p.book.balances[user] >= 0
    ensures Pay(p, user, placement, amount, version, disputed).Ok? ==>
      var q := Pay(p, user, placement, amount, version, disputed).value;
      && Consistent(q)
      && Live(q.awards) == Live(p.awards) + amount
      && |q.awards| == |p.awards| + 1
      && q.awards == p.awards + [q.awards[|p.awards|]]
      && q.awards[|p.awards|].user == user && q.awards[|p.awards|].version == version
      && q.awards[|p.awards|].status == (if disputed then Held else Credited)
      && OutsideKept(p, q)
      && (forall u :: u in p.book.balances && u != user ==> q.book.balances[u] == p.book.balances[u])
      && q.version == p.version
  {
    NoPrizeRow(p, user, version);
    PayIsOnePaid(p, user, placement, amount, version, disputed);
    if Pay(p, user, placement, amount, version, disputed).Ok? {
      var q := Pay(p, user, placement, amount, version, disputed).value;
      var added := q.awards[|p.awards|];
      OnePaidKeepsOutside(p, added, q);
      AppendKeepsConsistent(p, added, q);
    }
  }

  /** The shared part of crediting a held award and reversing a credited one. */
  lemma {:induction false} PointedRowKeepsConsistent(p: Purse, i: nat, a: Award, entry: Entry<Ref>, q: Purse)
    requires Consistent(p) && i < |p.awards|
    requires a.user == p.awards[i].user && a.version == p.awards[i].version
    requires p.awards[i].credit.Some? ==> a.credit == p.awards[i].credit
    requires p.awards[i].reversal.Some? ==> a.reversal == p.awards[i].reversal
    requires entry.user == a.user && Record(p.book, entry).Ok?
    requires q == p.(awards := p.awards[i := a], book := Record(p.book, entry).value, prizeWon := q.prizeWon)
    requires Backed(q.book.rows, a) && Explained(q.awards, q.book.rows[|p.book.rows|], |p.book.rows|)
    requires PrizeRow(q.book.rows[|p.book.rows|])
    requires entry.amount == (if a.status == Credited then a.amount else 0)
                             - (if p.awards[i].status == Credited then p.awards[i].amount else 0)
    ensures Consistent(q)
  {
    forall j | 0 <= j < |q.awards| ensures Backed(q.book.rows, q.awards[j]) {
      assert Backed(p.book.rows, p.awards[j]);
    }
    forall j, k | 0 <= j < k < |q.awards| ensures !SameKey(q.awards[j], q.awards[k]) {
      assert !SameKey(p.awards[j], p.awards[k]);
    }
    forall k: nat | k < |q.book.rows| ensures Explained(q.awards, q.book.rows[k], k) {
      if k < |p.book.rows| {
        assert Explained(p.awards, p.book.rows[k], k);
        StillExplained(p.awards, q.awards, p.book.rows[k], k);
      }
    }
    forall u: UserId ensures Net(q.book.rows, u) == CreditedTo(q.awards, u) {
      assert Net(p.book.rows, u) == CreditedTo(p.awards, u);
      SumsUpdate(p.awards, i, a, u);
      NetAppend(p.book.rows, q.book.rows[|p.book.rows|], u);
    }
  }

  lemma {:induction false} TheOnlyAward(awards: seq<Award>, i: nat)
    requires OnePerVersion(awards) && i < |awards|
    ensures forall j ::
      0 <= j < |awards| && awards[j].user == awards[i].user && awards[j].version == awards[i].version ==> j == i
  {
    forall j | 0 <= j < |awards| && awards[j].user == awards[i].user && awards[j].version == awards[i].version
      ensures j == i
    {
      assert SameKey(awards[i], awards[j]) && SameKey(awards[j], awards[i]);
    }
  }

  /** A credited award can always be taken back, whatever is left of the balance. */
  lemma {:induction false} ReverseKeepsConsistent(p: Purse, i: nat)
    requires Consistent(p) && i < |p.awards| && p.awards[i].status == Credited
    ensures ReverseAt(p, i).Ok?
    ensures var q := ReverseAt(p, i).value;
      && Consistent(q)
      && Live(q.awards) == Live(p.awards) - p.awards[i].amount
      && q.awards == p.awards[i := q.awards[i]]
      && q.awards[i].status == Reversed && q.awards[i].user == p.awards[i].user &&
         q.awards[i].version == p.awards[i].version
      && OutsideKept(p, q)
      && q.version == p.version
  {
    var a := p.awards[i];
    assert Backed(p.book.rows, a);
    TheOnlyAward(p.awards, i);
    NoReversalRow(p, a.user, a.version);
    var q := ReverseAt(p, i).value;
    assert q.awards[i].user == a.user;
    PointedRowKeepsConsistent(p, i, q.awards[i], ReversalEntry(a), q);
    forall u: UserId | u in p.book.balances ensures Outside(q, u) == Outside(p, u) {
      SumsUpdate(p.awards, i, q.awards[i], u);
    }
    SumsUpdate(p.awards, i, q.awards[i], a.user);
  }

  /** A held award can be credited exactly when the player is not overdrawn. */
  lemma {:induction false} ReleaseKeepsConsistent(p: Purse, i: nat)
    requires Consistent(p) && i < |p.awards| && p.awards[i].status == Held
    ensures ReleaseAt(p, i).Ok? <==> p.book.balances[p.awards[i].user] >= 0
    ensures ReleaseAt(p, i).Ok? ==>
      var q := ReleaseAt(p, i).value;
      && Consistent(q)
      && Live(q.awards) == Live(p.awards)
      && q.awards == p.awards[i := q.awards[i]]
      && q.awards[i].status == Credited && q.awards[i].user == p.awards[i].user &&
         q.awards[i].version == p.awards[i].version
      && q.book.balances == p.book.balances[p.awards[i].user := p.book.balances[p.awards[i].user] + p.awards[i].amount]
      && OutsideKept(p, q)
      && q.version == p.version && q.pool == p.pool && q.settled == p.settled
  {
    var a := p.awards[i];
    assert Backed(p.book.rows, a);
    TheOnlyAward(p.awards, i);
    NoPrizeRow(p, a.user, a.version);
    if ReleaseAt(p, i).Ok? {
      var q := ReleaseAt(p, i).value;
      assert q.awards[i].user == a.user;
      PointedRowKeepsConsistent(p, i, q.awards[i], PrizeEntry(a.user, a.amount, a.version), q);
      forall u: UserId | u in p.book.balances ensures Outside(q, u) == Outside(p, u) {
        SumsUpdate(p.awards, i, q.awards[i], u);
      }
      SumsUpdate(p.awards, i, q.awards[i], a.user);
    }
  }

  lemma {:induction false} MoveKeepsConsistent(p: Purse, entry: Entry<Ref>)
    requires Consistent(p)
    ensures Consistent(Move(p, entry)) && Move(p, entry) == p.(book := Move(p, entry).book)
  {
    var q := Move(p, entry);
    if q != p {
      forall j | 0 <= j < |q.awards| ensures Backed(q.book.rows, q.awards[j]) {
        assert Backed(p.book.rows, p.awards[j]);
      }
      forall k: nat | k < |q.book.rows| ensures Explained(q.awards, q.book.rows[k], k) {
        if k < |p.book.rows| { assert Explained(p.awards, p.book.rows[k], k); }
      }
      forall u: UserId ensures Net(q.book.rows, u) == CreditedTo(q.awards, u) {
        assert Net(p.book.rows, u) == CreditedTo(p.awards, u);
        NetAppend(p.book.rows, q.book.rows[|p.book.rows|], u);
      }
    }
  }

  // ---- operations ---------------------------------------------------------------------------

  ghost predicate NoneLive(awards: seq<Award>) {
    forall i :: 0 <= i < |awards| ==> awards[i].status == Reversed
  }

  lemma {:induction false} NoneLiveSums(awards: seq<Award>, user: UserId)
    requires NoneLive(awards)
    ensures CreditedTo(awards, user) == 0 && Live(awards) == 0
    decreases |awards|
  {
    if awards != [] { NoneLiveSums(awards[..|awards| - 1], user); }
  }

  /** This player can receive a prize now: it is held back, or the wallet is not overdrawn. */
  predicate Payable(p: Purse, user: UserId, disputed: set<UserId>) {
    user in p.book.balances && (user in disputed || p.book.balances[user] >= 0)
  }

  /** `q` is `p` with prizes for `users` at `version` appended, worth `total` in all. */
  ghost predicate Paid(p: Purse, q: Purse, users: set<UserId>, version: nat, total: nat) {
    && Consistent(q)
    && Live(q.awards) == Live(p.awards) + total
    && |p.awards| <= |q.awards| && q.awards[..|p.awards|] == p.awards
    && (forall i :: |p.awards| <= i < |q.awards| ==> q.awards[i].user in users && q.awards[i].version == version)
    && OutsideKept(p, q)
    && (forall u :: u in p.book.balances && u !in users ==> q.book.balances[u] == p.book.balances[u])
    && q.version == p.version
  }

  lemma {:induction false} PayIsPaid(p: Purse, user: UserId, placement: nat, amount: nat, version: nat,
      disputed: set<UserId>)
    requires Consistent(p) && user in p.book.balances && !HasAward(p.awards, user, version)
    ensures Pay(p, user, placement, amount, version, user in disputed).Ok? <==> Payable(p, user, disputed)
    ensures Pay(p, user, placement, amount, version, user in disputed).Ok? ==>
      Paid(p, Pay(p, user, placement, amount, version, user in disputed).value, {user}, version, amount)
  {
    PayKeepsConsistent(p, user, placement, amount, version, user in disputed);
  }

  lemma {:induction false} PaidTwice(p: Purse, q: Purse, r: Purse, us: set<UserId>, vs: set<UserId>, version: nat,
      m: nat, n: nat, total: nat)
    requires Paid(p, q, us, version, m) && Paid(q, r, vs, version, n) && total == m + n
    ensures Paid(p, r, us + vs, version, total)
  {
    forall i | |p.awards| <= i < |r.awards| ensures r.awards[i].user in us + vs && r.awards[i].version == version {
      if i < |q.awards| { assert r.awards[i] == q.awards[i]; }
    }
    assert r.awards[..|p.awards|] == r.awards[..|q.awards|][..|p.awards|];
    forall u: UserId | u in p.book.balances ensures Outside(r, u) == Outside(p, u) {
      assert Outside(q, u) == Outside(p, u);
    }
  }

  lemma {:induction false} StillUnpaid(p: Purse, q: Purse, users: set<UserId>, version: nat, total: nat, user: UserId)
    requires Paid(p, q, users, version, total) && user !in users && user in p.book.balances &&
      !HasAward(p.awards, user, version)
    ensures !HasAward(q.awards, user, version) && q.book.balances[user] == p.book.balances[user]
  {
    forall i | 0 <= i < |q.awards| ensures !(q.awards[i].user == user && q.awards[i].version == version) {
      if i < |p.awards| { assert q.awards[i] == q.awards[..|p.awards|][i]; }
    }
  }

  lemma {:induction false} PayTeamKeeps(p: Purse, team: Finalists, placement: nat, teamPool: nat, version: nat,
      disputed: set<UserId>)
    requires Consistent(p) && team.first != team.second
    requires team.first in p.book.balances && team.second in p.book.balances
    requires !HasAward(p.awards, team.first, version) && !HasAward(p.awards, team.second, version)
    ensures PayTeam(p, team, placement, teamPool, version, disputed).Ok?
      <==> Payable(p, team.first, disputed) && Payable(p, team.second, disputed)
    ensures PayTeam(p, team, placement, teamPool, version, disputed).Ok? ==>
      Paid(p, PayTeam(p, team, placement, teamPool, version, disputed).value, {team.first} + {team.second}, version,
        teamPool)
  {
    PayIsPaid(p, team.first, placement, FirstShare(teamPool), version, disputed);
    var one := Pay(p, team.first, placement, FirstShare(teamPool), version, team.first in disputed);
    if one.Ok? {
      StillUnpaid(p, one.value, {team.first}, version, FirstShare(teamPool), team.second);
      PayIsPaid(one.value, team.second, placement, SecondShare(teamPool), version, disputed);
      var two := Pay(one.value, team.second, placement, SecondShare(teamPool), version, team.second in disputed);
      if two.Ok? {
        PaidTwice(p, one.value, two.value, {team.first}, {team.second}, version, FirstShare(teamPool),
          SecondShare(teamPool), teamPool);
      }
    }
  }

  ghost predicate FourPlayers(p: Purse, champions: Finalists, runnersUp: Finalists) {
    && champions.first != champions.second && runnersUp.first != runnersUp.second
    && {champions.first, champions.second} !! {runnersUp.first, runnersUp.second}
    && {champions.first, champions.second, runnersUp.first, runnersUp.second} <= p.book.balances.Keys
  }

  ghost predicate Settled(p: Purse, q: Purse, pool: nat, skip: bool) {
    && Sound(q) && OutsideKept(p, q)
    && q.version == p.version + 1 && q.pool == pool
    && Live(q.awards) == (if skip then ChampionPool(pool) else pool)
    && (q.settled <==> !AnyHeld(q.awards))
  }

  /** The last write of a settlement: the new version and, without holds, `settledAt`. */
  lemma {:induction false} ClosingSound(p: Purse, q: Purse, pool: nat, version: nat, users: set<UserId>, skip: bool,
      total: nat)
    requires NoneLive(p.awards) && version == p.version + 1 && total == (if skip then ChampionPool(pool) else pool)
    requires forall i :: 0 <= i < |p.awards| ==> 1 <= p.awards[i].version <= p.version
    requires Paid(p, q, users, version, total)
    ensures Settled(p, Closed(q, pool, version), pool, skip)
  {
    var r := Closed(q, pool, version);
    SameTables(q, r);
    NoneLiveSums(p.awards, 0);
    forall i | 0 <= i < |r.awards|
      ensures 1 <= r.awards[i].version <= version
      ensures r.awards[i].status != Reversed ==> r.awards[i].version == version
    {
      if i < |p.awards| { assert r.awards[i] == q.awards[..|p.awards|][i]; }
    }
    forall u: UserId | u in p.book.balances ensures Outside(r, u) == Outside(p, u) {
      assert Outside(q, u) == Outside(p, u);
    }
  }

  lemma {:induction false} SecondTeamPayable(p: Purse, one: Purse, first: nat, part: nat, version: nat,
      users: set<UserId>, team: Finalists, disputed: set<UserId>)
    requires forall i :: 0 <= i < |p.awards| ==> 1 <= p.awards[i].version <= p.version
    requires version == p.version + 1 && Paid(p, one, users, version, first)
    requires team.first != team.second && team.first !in users && team.second !in users
    requires team.first in p.book.balances && team.second in p.book.balances
    ensures var two := PayTeam(one, team, 2, part, version, disputed);
      && (two.Ok? <==> Payable(p, team.first, disputed) && Payable(p, team.second, disputed))
      && (two.Ok? ==> Paid(one, two.value, {team.first} + {team.second}, version, part))
  {
    NextPlayerReady(p, one, users, version, first, team.first, disputed);
    NextPlayerReady(p, one, users, version, first, team.second, disputed);
    PayTeamKeeps(one, team, 2, part, version, disputed);
  }

  /** A player the first team's prizes did not touch. */
  lemma {:induction false} NextPlayerReady(p: Purse, one: Purse, users: set<UserId>, version: nat, total: nat,
      user: UserId, disputed: set<UserId>)
    requires (forall i :: 0 <= i < |p.awards| ==> p.awards[i].version < version) && Paid(p, one, users, version, total)
    requires user !in users && user in p.book.balances
    ensures user in one.book.balances && !HasAward(one.awards, user, version)
    ensures Payable(one, user, disputed) <==> Payable(p, user, disputed)
  {
    NoAwardYet(p, user, version);
    StillUnpaid(p, one, users, version, total, user);
    SamePayable(p, one, user, disputed);
  }

  lemma {:induction false} NoAwardYet(p: Purse, user: UserId, version: nat)
    requires forall i :: 0 <= i < |p.awards| ==> p.awards[i].version < version
    ensures !HasAward(p.awards, user, version)
  {
  }

  lemma {:induction false} SamePayable(p: Purse, q: Purse, user: UserId, disputed: set<UserId>)
    requires user in p.book.balances && user in q.book.balances && q.book.balances[user] == p.book.balances[user]
    ensures Payable(q, user, disputed) <==> Payable(p, user, disputed)
  {
  }

  /** One team after the other, whatever their parts of the pool are. */
  lemma {:induction false} TeamsPaid(p: Purse, top: nat, rest: nat, version: nat, champions: Finalists,
      runnersUp: Finalists, skip: bool, disputed: set<UserId>, one: Result<Purse, Failure>, two: Result<Purse, Failure>)
    requires Consistent(p) && FourPlayers(p, champions, runnersUp) && version == p.version + 1
    requires forall i :: 0 <= i < |p.awards| ==> 1 <= p.awards[i].version <= p.version
    requires one == PayTeam(p, champions, 1, top, version, disputed)
    requires two == if one.Err? || skip then one else PayTeam(one.value, runnersUp, 2, rest, version, disputed)
    ensures two.Ok? <==>
      && Payable(p, champions.first, disputed) && Payable(p, champions.second, disputed)
      && (skip || (Payable(p, runnersUp.first, disputed) && Payable(p, runnersUp.second, disputed)))
    ensures two.Ok? ==> Paid(p, two.value,
      {champions.first} + {champions.second} + if skip then {} else {runnersUp.first} + {runnersUp.second}, version,
      if skip then top else top + rest)
  {
    var users := {champions.first} + {champions.second};
    PayTeamKeeps(p, champions, 1, top, version, disputed);
    if one.Ok? && !skip {
      SecondTeamPayable(p, one.value, top, rest, version, users, runnersUp, disputed);
      if two.Ok? {
        PaidTwice(p, one.value, two.value, users, {runnersUp.first} + {runnersUp.second}, version, top, rest,
          top + rest);
      }
    }
  }

  /** Everything a fresh settlement promises, and exactly when the ledger lets it happen. */
  lemma {:induction false} PayFinalistsSound(p: Purse, pool: nat, champions: Finalists, runnersUp: Finalists,
      skip: bool, disputed: set<UserId>)
    requires Consistent(p) && NoneLive(p.awards) && FourPlayers(p, champions, runnersUp)
    requires forall i :: 0 <= i < |p.awards| ==> 1 <= p.awards[i].version <= p.version
    ensures PayFinalists(p, pool, champions, runnersUp, skip, disputed).Ok? <==>
      && Payable(p, champions.first, disputed) && Payable(p, champions.second, disputed)
      && (skip || (Payable(p, runnersUp.first, disputed) && Payable(p, runnersUp.second, disputed)))
    ensures PayFinalists(p, pool, champions, runnersUp, skip, disputed).Ok? ==>
      Settled(p, PayFinalists(p, pool, champions, runnersUp, skip, disputed).value, pool, skip)
  {
    var version, top := p.version + 1, ChampionPool(pool);
    var one := PayTeam(p, champions, 1, top, version, disputed);
    var two := if one.Err? || skip then one else PayTeam(one.value, runnersUp, 2, pool - top, version, disputed);
    TeamsPaid(p, top, pool - top, version, champions, runnersUp, skip, disputed, one, two);
    if two.Ok? {
      ClosingSound(p, two.value, pool, version,
        {champions.first} + {champions.second} + if skip then {} else {runnersUp.first} + {runnersUp.second}, skip,
        if skip then top else pool);
    }
    PayFinalistsIs(p, pool, champions, runnersUp, skip, disputed, one, two);
  }

  /** The two stages of a settlement, spelled out. */
  lemma {:induction false} PayFinalistsIs(p: Purse, pool: nat, champions: Finalists, runnersUp: Finalists, skip: bool,
      disputed: set<UserId>, one: Result<Purse, Failure>, two: Result<Purse, Failure>)
    requires one == PayTeam(p, champions, 1, ChampionPool(pool), p.version + 1, disputed)
    requires one.Err? || skip ==> two == one
    requires one.Ok? && !skip ==>
      two == PayTeam(one.value, runnersUp, 2, pool - ChampionPool(pool), p.version + 1, disputed)
    ensures PayFinalists(p, pool, champions, runnersUp, skip, disputed)
         == (if two.Err? then Err(two.error) else Ok(Closed(two.value, pool, p.version + 1)))
  {
    PayBothIs(p, pool, champions, runnersUp, skip, disputed, one, two);
    ClosesBoth(p, pool, champions, runnersUp, skip, disputed);
  }

  lemma {:induction false} ClosesBoth(p: Purse, pool: nat, champions: Finalists, runnersUp: Finalists, skip: bool,
      disputed: set<UserId>)
    ensures var both := PayBoth(p, pool, champions, runnersUp, skip, disputed);
      PayFinalists(p, pool, champions, runnersUp, skip, disputed)
        == (if both.Err? then Err(both.error) else Ok(Closed(both.value, pool, p.version + 1)))
  {
  }

  lemma {:induction false} PayBothIs(p: Purse, pool: nat, champions: Finalists, runnersUp: Finalists, skip: bool,
      disputed: set<UserId>, one: Result<Purse, Failure>, two: Result<Purse, Failure>)
    requires one == PayTeam(p, champions, 1, ChampionPool(pool), p.version + 1, disputed)
    requires one.Err? || skip ==> two == one
    requires one.Ok? && !skip ==>
      two == PayTeam(one.value, runnersUp, 2, pool - ChampionPool(pool), p.version + 1, disputed)
    ensures PayBoth(p, pool, champions, runnersUp, skip, disputed) == two
  {
  }

  lemma {:induction false} SameTables(p: Purse, q: Purse)
    requires Consistent(p) && q.awards == p.awards && q.book == p.book
    ensures Consistent(q)
  {
    forall i | 0 <= i < |q.awards| ensures Backed(q.book.rows, q.awards[i]) { assert Backed(p.book.rows, p.awards[i]); }
    forall k: nat | k < |q.book.rows| ensures Explained(q.awards, q.book.rows[k], k) {
      assert Explained(p.awards, p.book.rows[k], k);
    }
  }

  // ---- correction ------------------------------------------------------------------------------

  lemma {:induction false} ReverseCreditedKeeps(p: Purse, i: nat)
    requires Consistent(p) && i <= |p.awards|
    ensures ReverseCredited(p, i).Ok?
    ensures var q := ReverseCredited(p, i).value;
      && Consistent(q) && OutsideKept(p, q)
      && q.version == p.version && |q.awards| == |p.awards|
      && (forall j :: 0 <= j < |p.awards| ==>
            && q.awards[j].user == p.awards[j].user && q.awards[j].version == p.awards[j].version
            && q.awards[j].status
               == (if j >= i && p.awards[j].version == p.version &&
               p.awards[j].status == Credited then Reversed else p.awards[j].status))
    decreases |p.awards| - i
  {
    if i < |p.awards| {
      if p.awards[i].version == p.version && p.awards[i].status == Credited {
        ReverseKeepsConsistent(p, i);
        var r := ReverseAt(p, i).value;
        ReverseCreditedKeeps(r, i + 1);
        var q := ReverseCredited(r, i + 1).value;
        forall u: UserId | u in p.book.balances ensures Outside(q, u) == Outside(p, u) {
          assert Outside(r, u) == Outside(p, u);
        }
        forall j | 0 <= j < |p.awards|
          ensures q.awards[j].user == p.awards[j].user && q.awards[j].version == p.awards[j].version
          ensures q.awards[j].status
            == (if j >= i && p.awards[j].version == p.version &&
            p.awards[j].status == Credited then Reversed else p.awards[j].status)
        {
          assert r.awards[j] == if j == i then r.awards[i] else p.awards[j];
        }
      } else {
        ReverseCreditedKeeps(p, i + 1);
      }
    }
  }

  /** Dropping holds moves no money and leaves the tables consistent. */
  ghost predicate HoldsDropped(a: seq<Award>, b: seq<Award>) {
    && |a| == |b|
    && forall i :: 0 <= i < |a| ==> b[i] == a[i] || (a[i].status == Held && b[i] == a[i].(status := Reversed))
  }

  lemma {:induction false} HoldsDroppedSums(a: seq<Award>, b: seq<Award>, user: UserId)
    requires HoldsDropped(a, b)
    ensures CreditedTo(b, user) == CreditedTo(a, user) && Live(b) <= Live(a)
    decreases |a|
  {
    if a != [] { HoldsDroppedSums(a[..|a| - 1], b[..|b| - 1], user); }
  }

  lemma {:induction false} DroppingHoldsKeeps(p: Purse, q: Purse)
    requires Consistent(p) && HoldsDropped(p.awards, q.awards) && q.book == p.book
    ensures Consistent(q) && OutsideKept(p, q) && Live(q.awards) <= Live(p.awards)
  {
    forall i | 0 <= i < |q.awards| ensures Backed(q.book.rows, q.awards[i]) { assert Backed(p.book.rows, p.awards[i]); }
    forall k: nat | k < |q.book.rows| ensures Explained(q.awards, q.book.rows[k], k) {
      assert Explained(p.awards, p.book.rows[k], k);
      StillExplained(p.awards, q.awards, p.book.rows[k], k);
    }
    forall i, j | 0 <= i < j < |q.awards| ensures !SameKey(q.awards[i], q.awards[j]) {
      assert !SameKey(p.awards[i], p.awards[j]);
    }
    forall u: UserId ensures CreditedTo(q.awards, u) == CreditedTo(p.awards, u) {
      HoldsDroppedSums(p.awards, q.awards, u);
    }
    forall u: UserId ensures Net(q.book.rows, u) == CreditedTo(q.awards, u) {
      assert Net(p.book.rows, u) == CreditedTo(p.awards, u);
    }
    HoldsDroppedSums(p.awards, q.awards, 0);
  }

  /** The state in which a correction starts paying: nothing is live, and wallets hold only other money. */
  lemma {:induction false} TakenBack(p: Purse)
    requires Sound(p)
    ensures ReverseCredited(p, 0).Ok?
    ensures var q := ReverseCredited(p, 0).value;
      var r := q.(awards := ReverseHeld(q.awards, q.version), prizeWon := map[]);
      && Consistent(r) && NoneLive(r.awards) && OutsideKept(p, r) && r.version == p.version
      && (forall i :: 0 <= i < |r.awards| ==> 1 <= r.awards[i].version <= r.version)
      && (forall u :: u in p.book.balances ==> r.book.balances[u] == Outside(p, u))
  {
    ReverseCreditedKeeps(p, 0);
    var q := ReverseCredited(p, 0).value;
    var r := q.(awards := ReverseHeld(q.awards, q.version), prizeWon := map[]);
    DroppingHoldsKeeps(q, r);
    forall i | 0 <= i < |r.awards| ensures r.awards[i].status == Reversed && 1 <= r.awards[i].version <= r.version {
      assert q.awards[i].version == p.awards[i].version;
    }
    forall u: UserId | u in p.book.balances
      ensures Outside(r, u) == Outside(p, u) && r.book.balances[u] == Outside(p, u)
    {
      assert Outside(q, u) == Outside(p, u);
      assert Outside(r, u) == Outside(q, u);
      NoneLiveSums(r.awards, u);
    }
  }

  /**
   * A correction keeps every settlement invariant; and the ledger accepts it
   * exactly when no newly credited finalist would be overdrawn without the
   * prizes being taken back.
   */
  lemma {:induction false} CorrectSound(p: Purse, pool: nat, champions: Finalists, runnersUp: Finalists,
      disputed: set<UserId>)
    requires Sound(p) && FourPlayers(p, champions, runnersUp)
    ensures Correct(p, pool, champions, runnersUp, disputed).Ok? <==>
      forall u :: u in {champions.first, champions.second, runnersUp.first, runnersUp.second} && u !in disputed ==>
        Outside(p, u) >= 0
    ensures Correct(p, pool, champions, runnersUp, disputed).Ok? ==>
      Settled(p, Correct(p, pool, champions, runnersUp, disputed).value, pool, false)
  {
    TakenBack(p);
    var q := ReverseCredited(p, 0).value;
    var r := q.(awards := ReverseHeld(q.awards, q.version), prizeWon := map[]);
    PayFinalistsSound(r, pool, champions, runnersUp, false, disputed);
    var outcome := PayFinalists(r, pool, champions, runnersUp, false, disputed);
    forall u | u in {champions.first, champions.second, runnersUp.first, runnersUp.second}
      ensures Payable(r, u, disputed) <==> u in disputed || Outside(p, u) >= 0 {}
    if outcome.Ok? { SettledAgain(p, r, outcome.value, pool, false); }
    assert Correct(p, pool, champions, runnersUp, disputed) == outcome;
  }

  lemma {:induction false} SettledAgain(p: Purse, r: Purse, q: Purse, pool: nat, skip: bool)
    requires OutsideKept(p, r) && r.version == p.version && Settled(r, q, pool, skip)
    ensures Settled(p, q, pool, skip)
  {
    forall u: UserId | u in p.book.balances ensures Outside(q, u) == Outside(p, u) {
      assert Outside(r, u) == Outside(p, u);
      assert Outside(q, u) == Outside(r, u);
    }
  }

  // ---- release and disqualification ----------------------------------------------------------------

  predicate IsHeldFor(a: Award, user: UserId) {
    a.user == user && a.status == Held
  }

  predicate HeldFor(awards: seq<Award>, user: UserId, i: nat) {
    exists j :: i <= j < |awards| && awards[j].user == user && awards[j].status == Held
  }

  /** `q` is `p` with the player's held awards from position `i` on credited. */
  ghost predicate Released(p: Purse, q: Purse, user: UserId, i: nat) {
    && Consistent(q) && OutsideKept(p, q)
    && q.version == p.version && q.pool == p.pool && q.settled == p.settled && |q.awards| == |p.awards|
    && Live(q.awards) == Live(p.awards)
    && (forall j :: 0 <= j < |p.awards| ==>
          && q.awards[j].user == p.awards[j].user && q.awards[j].version == p.awards[j].version
          && q.awards[j].status == (if j >= i && IsHeldFor(p.awards[j], user) then Credited else p.awards[j].status))
  }

  lemma {:induction false} ReleasedOneMore(p: Purse, r: Purse, q: Purse, user: UserId, i: nat)
    requires i < |p.awards| == |r.awards| && p.awards[i].user == user && p.awards[i].status == Held
    requires OutsideKept(p, r) && Live(r.awards) == Live(p.awards)
    requires r.version == p.version && r.pool == p.pool && r.settled == p.settled
    requires r.awards == p.awards[i := r.awards[i]] &&
      r.awards[i] == p.awards[i].(status := Credited, credit := r.awards[i].credit)
    requires Released(r, q, user, i + 1)
    ensures Released(p, q, user, i)
  {
    OutsideKeptOn(p, r, q);
    forall j | 0 <= j < |p.awards|
      ensures q.awards[j].user == p.awards[j].user && q.awards[j].version == p.awards[j].version
      ensures q.awards[j].status
        == (if j >= i && p.awards[j].user == user && p.awards[j].status == Held then Credited else p.awards[j].status)
    {
      assert r.awards[j] == if j == i then r.awards[i] else p.awards[j];
    }
  }

  lemma {:induction false} ReleaseFromKeeps(p: Purse, user: UserId, i: nat)
    requires Consistent(p) && i <= |p.awards|
    ensures ReleaseFrom(p, user, i).Ok? <==> !HeldFor(p.awards, user, i) || p.book.balances[user] >= 0
    ensures ReleaseFrom(p, user, i).Ok? ==> Released(p, ReleaseFrom(p, user, i).value, user, i)
    decreases |p.awards| - i
  {
    if i == |p.awards| {
    } else if p.awards[i].user == user && p.awards[i].status == Held {
      ReleaseKeepsConsistent(p, i);
      if ReleaseAt(p, i).Ok? {
        var r := ReleaseAt(p, i).value;
        ReleaseFromKeeps(r, user, i + 1);
        if ReleaseFrom(r, user, i + 1).Ok? {
          ReleasedOneMore(p, r, ReleaseFrom(r, user, i + 1).value, user, i);
        }
      }
    } else {
      ReleaseFromKeeps(p, user, i + 1);
      SkippedOne(p, user, i);
    }
  }

  lemma {:induction false} SkippedOne(p: Purse, user: UserId, i: nat)
    requires i < |p.awards| && !IsHeldFor(p.awards[i], user)
    ensures HeldFor(p.awards, user, i) <==> HeldFor(p.awards, user, i + 1)
    ensures forall q :: Released(p, q, user, i + 1) ==> Released(p, q, user, i)
  {
  }

  /** A release credits every held prize of the player, or is refused exactly when the wallet is overdrawn. */
  lemma {:induction false} ReleaseSound(p: Purse, user: UserId, stillOpen: bool)
    requires Sound(p)
    ensures Release(p, user, stillOpen).Ok? <==> stillOpen || !HeldFor(p.awards, user, 0) || p.book.balances[user] >= 0
    ensures Release(p, user, stillOpen).Ok? ==>
      var q := Release(p, user, stillOpen).value;
      Sound(q) && OutsideKept(p, q) && q.version == p.version && q.pool == p.pool &&
        (!stillOpen ==> !HeldFor(q.awards, user, 0))
  {
    ReleaseFromKeeps(p, user, 0);
    if Release(p, user, stillOpen).Ok? && !stillOpen {
      var r := ReleaseFrom(p, user, 0).value;
      var q := Release(p, user, stillOpen).value;
      SameTables(r, q);
      forall u: UserId | u in p.book.balances ensures Outside(q, u) == Outside(p, u) {
        assert Outside(r, u) == Outside(p, u);
      }
      forall i | 0 <= i < |q.awards|
        ensures 1 <= q.awards[i].version <= q.version
        ensures q.awards[i].status != Reversed ==> q.awards[i].version == q.version
        ensures q.awards[i].status == Held ==> p.awards[i].status == Held
      {
        assert q.awards[i].version == p.awards[i].version;
      }
    }
  }

  lemma {:induction false} DisqualifySound(p: Purse, user: UserId)
    requires Sound(p)
    ensures Sound(Disqualify(p, user)) && OutsideKept(p, Disqualify(p, user)) &&
      !HeldFor(Disqualify(p, user).awards, user, 0)
  {
    var q := Disqualify(p, user);
    DroppingHoldsKeeps(p, q);
    forall i | 0 <= i < |q.awards|
      ensures 1 <= q.awards[i].version <= q.version
      ensures q.awards[i].status != Reversed ==> q.awards[i].version == q.version
      ensures q.awards[i].status == Held ==> p.awards[i].status == Held
    {
      assert q.awards[i].version == p.awards[i].version;
    }
  }

  lemma {:induction false} MoveSound(p: Purse, entry: Entry<Ref>)
    requires Sound(p)
    ensures Sound(Move(p, entry)) && Move(p, entry).book.balances.Keys == p.book.balances.Keys
    ensures forall u :: u in p.book.balances ==> Outside(Move(p, entry), u) == Outside(p, u) + MovedBy(p, entry, u)
  {
    MoveKeepsConsistent(p, entry);
  }

  /** What a movement adds to a player's other money: its amount, if it was accepted. */
  function MovedBy(p: Purse, entry: Entry<Ref>, user: UserId): int {
    if user == entry.user && Move(p, entry) != p then entry.amount else 0
  }

  // ---- every run -------------------------------------------------------------------------------------

  datatype Op =
    | SettleOp(pool: nat, champions: Finalists, runnersUp: Finalists, skipRunnersUp: bool, disputed: set<UserId>)
    | CorrectOp(pool: nat, champions: Finalists, runnersUp: Finalists, disputed: set<UserId>)
    | ReleaseOp(user: UserId, stillOpen: bool)
    | DisqualifyOp(user: UserId)
    | MoveOp(entry: Entry<Ref>)

  /** One transaction: settlement happens once, corrections only after it, refusals roll back. */
  ghost function Step(p: Purse, op: Op): Purse {
    match op
    case SettleOp(pool, champions, runnersUp, skip, disputed) =>
      if p.version == 0 && FourPlayers(p, champions, runnersUp)
        then Committed(p, Settle(p, pool, champions, runnersUp, skip, disputed)) else p
    case CorrectOp(pool, champions, runnersUp, disputed) =>
      if p.version > 0 && FourPlayers(p, champions, runnersUp)
        then Committed(p, Correct(p, pool, champions, runnersUp, disputed)) else p
    case ReleaseOp(user, stillOpen) => Committed(p, Release(p, user, stillOpen))
    case DisqualifyOp(user) => Disqualify(p, user)
    case MoveOp(entry) => Move(p, entry)
  }

  ghost function Run(p: Purse, ops: seq<Op>): Purse {
    if ops == [] then p else Step(Run(p, ops[..|ops| - 1]), ops[|ops| - 1])
  }

  /** The accepted movements of other money over a run. */
  ghost function Moved(p: Purse, ops: seq<Op>, user: UserId): int {
    if ops == [] then 0
    else
      var last := ops[|ops| - 1];
      Moved(p, ops[..|ops| - 1], user) +
        (if last.MoveOp? then MovedBy(Run(p, ops[..|ops| - 1]), last.entry, user) else 0)
  }

  ghost predicate Fresh(p: Purse) {
    && p.version == 0 && !p.settled && p.awards == []
    && forall k :: 0 <= k < |p.book.rows| ==> !PrizeRow(p.book.rows[k])
  }

  lemma {:induction false} NoPrizeRowsNoNet(rows: seq<Row<Ref>>, user: UserId)
    requires forall k :: 0 <= k < |rows| ==> !PrizeRow(rows[k])
    ensures Net(rows, user) == 0
    decreases |rows|
  {
    if rows != [] { NoPrizeRowsNoNet(rows[..|rows| - 1], user); }
  }

  lemma {:induction false} FreshIsSound(p: Purse)
    requires Fresh(p)
    ensures Sound(p)
  {
    forall u: UserId ensures Net(p.book.rows, u) == CreditedTo(p.awards, u) { NoPrizeRowsNoNet(p.book.rows, u); }
    forall k: nat | k < |p.book.rows| ensures Explained(p.awards, p.book.rows[k], k) {
      assert !PrizeRow(p.book.rows[k]);
    }
  }

  lemma {:induction false} StepSound(p: Purse, op: Op, user: UserId)
    requires Sound(p) && user in p.book.balances
    ensures Sound(Step(p, op)) && user in Step(p, op).book.balances
    ensures Outside(Step(p, op), user) == Outside(p, user) + (if op.MoveOp? then MovedBy(p, op.entry, user) else 0)
  {
    match op {
      case SettleOp(pool, champions, runnersUp, skip, disputed) =>
        if p.version == 0 && FourPlayers(p, champions, runnersUp) {
          PayFinalistsSound(p, pool, champions, runnersUp, skip, disputed);
        }
      case CorrectOp(pool, champions, runnersUp, disputed) =>
        if p.version > 0 && FourPlayers(p, champions, runnersUp) {
          CorrectSound(p, pool, champions, runnersUp, disputed);
        }
      case ReleaseOp(u, stillOpen) => ReleaseSound(p, u, stillOpen);
      case DisqualifyOp(u) => DisqualifySound(p, u);
      case MoveOp(entry) => MoveSound(p, entry);
    }
    assert Outside(Step(p, op), user) == Outside(Step(p, op), user);
  }

  /**
   * Every run of settlement, holds, releases, disqualifications, corrections and
   * unrelated money movements: a player's prize and reversal rows net to that
   * player's credited awards, live awards carry the current version and fit the
   * pool, `settledAt` means nothing is held, and the wallet is exactly the
   * player's other money plus the credited awards.
   */
  lemma {:induction false} EveryRun(p: Purse, ops: seq<Op>, user: UserId)
    requires Fresh(p) && user in p.book.balances
    ensures var q := Run(p, ops);
      && Sound(q) && user in q.book.balances
      && Net(q.book.rows, user) == CreditedTo(q.awards, user)
      && (forall i :: 0 <= i < |q.awards| && q.awards[i].status != Reversed ==> q.awards[i].version == q.version)
      && Live(q.awards) <= q.pool
      && (q.settled ==> !AnyHeld(q.awards))
      && q.book.balances[user] == p.book.balances[user] + Moved(p, ops, user) + CreditedTo(q.awards, user)
    decreases |ops|
  {
    if ops == [] {
      FreshIsSound(p);
    } else {
      EveryRun(p, ops[..|ops| - 1], user);
      StepSound(Run(p, ops[..|ops| - 1]), ops[|ops| - 1], user);
    }
  }

  // ---- what does not hold ------------------------------------------------------------------------------

  /** `settledAt` stamped on a tournament that has not been settled. */
  predicate StampedEarly(p: Purse) {
    p.settled && p.version == 0
  }

  predicate Clears(op: Op) {
    op.ReleaseOp? && !op.stillOpen
  }

  /** A step stamps an unsettled tournament if and only if it clears a player's last open case. */
  lemma {:induction false} StampsEarlyExactlyWhenClearing(p: Purse, op: Op)
    requires Sound(p) && p.version == 0 && !p.settled
    ensures StampedEarly(Step(p, op)) <==> Clears(op)
  {
    AwardsMeanSettled(p);
  }

  lemma {:induction false} AwardsMeanSettled(p: Purse)
    requires Sound(p)
    ensures p.version == 0 ==> p.awards == []
  {
    if p.awards != [] { assert 1 <= p.awards[0].version <= p.version; }
  }

  lemma {:induction false} StampStaysUntilSettled(p: Purse, op: Op)
    requires Sound(p)
    ensures p.version <= Step(p, op).version
    ensures Step(p, op).version == 0 ==> Step(p, op).settled == (p.settled || Clears(op))
  {
    if op.CorrectOp? && p.version > 0 && FourPlayers(p, op.champions, op.runnersUp) {
      CorrectSound(p, op.pool, op.champions, op.runnersUp, op.disputed);
    } else if op.ReleaseOp? {
      ReleaseSound(p, op.user, op.stillOpen);
    } else if op.SettleOp? && p.version == 0 && FourPlayers(p, op.champions, op.runnersUp) {
      PayFinalistsSound(p, op.pool, op.champions, op.runnersUp, op.skipRunnersUp, op.disputed);
    }
    AwardsMeanSettled(p);
  }

  /** An unsettled tournament carries `settledAt` if and only if some case of a player has been cleared. */
  lemma {:induction false} StampedBeforeSettlementExactlyWhen(p: Purse, ops: seq<Op>, user: UserId)
    requires Fresh(p) && user in p.book.balances && Run(p, ops).version == 0
    ensures StampedEarly(Run(p, ops)) <==> exists i :: 0 <= i < |ops| && Clears(ops[i])
    decreases |ops|
  {
    if ops != [] {
      var init := ops[..|ops| - 1];
      EveryRun(p, init, user);
      StampStaysUntilSettled(Run(p, init), ops[|ops| - 1]);
      StampedBeforeSettlementExactlyWhen(p, init, user);
      if i :| 0 <= i < |ops| && Clears(ops[i]) { assert i < |init| ==> Clears(init[i]); }
      if i :| 0 <= i < |init| && Clears(init[i]) { assert Clears(ops[i]); }
    }
  }

  /** Settled, and stamped as soon as nothing is held. */
  ghost predicate StampedWhenNothingHeld(p: Purse) {
    !AnyHeld(p.awards) ==> p.settled
  }

  /** Every hold is this player's, and there is one. */
  predicate OnlyHeldFor(awards: seq<Award>, user: UserId) {
    AnyHeld(awards) && forall i :: 0 <= i < |awards| && awards[i].status == Held ==> awards[i].user == user
  }

  lemma {:induction false} DisqualifyFreesExactly(p: Purse, user: UserId)
    ensures AnyHeld(p.awards) && !AnyHeld(Disqualify(p, user).awards) <==> OnlyHeldFor(p.awards, user)
  {
    var a, b := p.awards, Disqualify(p, user).awards;
    forall i | 0 <= i < |a| ensures b[i].status == Held <==> a[i].status == Held && a[i].user != user {}
    if i :| 0 <= i < |a| && a[i].status == Held && a[i].user != user { assert b[i].status == Held; }
  }

  /** "Nothing held means stamped" is broken by a step exactly when it disqualifies the one player with holds. */
  lemma {:induction false} StampIsMissedExactlyWhen(p: Purse, op: Op)
    requires Sound(p) && p.version >= 1 && StampedWhenNothingHeld(p)
    ensures !StampedWhenNothingHeld(Step(p, op)) <==> op.DisqualifyOp? && OnlyHeldFor(p.awards, op.user)
  {
    match op {
      case SettleOp(_, _, _, _, _) =>
      case CorrectOp(pool, champions, runnersUp, disputed) =>
        if FourPlayers(p, champions, runnersUp) { CorrectSound(p, pool, champions, runnersUp, disputed); }
      case ReleaseOp(user, stillOpen) =>
      case DisqualifyOp(user) => DisqualifyFreesExactly(p, user);
      case MoveOp(_) =>
    }
  }

  /** The broken state is reached: a settlement that holds one prize, then the disqualification of its player. */
  lemma {:induction false} MissedStampHappens(p: Purse, pool: nat, champions: Finalists, runnersUp: Finalists)
    requires Fresh(p) && FourPlayers(p, champions, runnersUp)
    requires forall u :: u in {champions.second, runnersUp.first, runnersUp.second} ==> p.book.balances[u] >= 0
    ensures var held := Step(p, SettleOp(pool, champions, runnersUp, false, {champions.first}));
      var after := Step(held, DisqualifyOp(champions.first));
      && held.version == 1 && StampedWhenNothingHeld(held) && OnlyHeldFor(held.awards, champions.first)
      && !AnyHeld(after.awards) && !after.settled
  {
    var disputed := {champions.first};
    FreshIsSound(p);
    PayFinalistsSound(p, pool, champions, runnersUp, false, disputed);
    var held := Step(p, SettleOp(pool, champions, runnersUp, false, disputed));
    OneHold(p, pool, champions, runnersUp);
    StampIsMissedExactlyWhen(held, DisqualifyOp(champions.first));
  }

  lemma {:induction false} OneHold(p: Purse, pool: nat, champions: Finalists, runnersUp: Finalists)
    requires p.awards == [] && champions.first !in {champions.second, runnersUp.first, runnersUp.second}
    requires Settle(p, pool, champions, runnersUp, false, {champions.first}).Ok?
    ensures OnlyHeldFor(Settle(p, pool, champions, runnersUp, false, {champions.first}).value.awards, champions.first)
  {
    var disputed := {champions.first};
    var one := PayTeam(p, champions, 1, ChampionPool(pool), p.version + 1, disputed);
    assert one.Ok?;
    FirstHeld(p, champions, ChampionPool(pool), p.version + 1);
    var two := PayTeam(one.value, runnersUp, 2, pool - ChampionPool(pool), p.version + 1, disputed);
    assert two.Ok?;
    NothingMoreHeld(one.value, runnersUp, pool - ChampionPool(pool), p.version + 1, champions.first);
    PayFinalistsIs(p, pool, champions, runnersUp, false, disputed, one, two);
  }

  lemma {:induction false} FirstHeld(p: Purse, team: Finalists, teamPool: nat, version: nat)
    requires p.awards == [] && team.first != team.second && PayTeam(p, team, 1, teamPool, version, {team.first}).Ok?
    ensures OnlyHeldFor(PayTeam(p, team, 1, teamPool, version, {team.first}).value.awards, team.first)
  {
    var a := Pay(p, team.first, 1, FirstShare(teamPool), version, true).value;
    var b := Pay(a, team.second, 1, SecondShare(teamPool), version, false).value;
    assert a.awards[0].status == Held && |a.awards| == 1;
    assert b.awards[0] == a.awards[0];
  }

  lemma {:induction false} NothingMoreHeld(p: Purse, team: Finalists, teamPool: nat, version: nat, user: UserId)
    requires OnlyHeldFor(p.awards, user) && user !in {team.first, team.second} &&
      PayTeam(p, team, 2, teamPool, version, {user}).Ok?
    ensures OnlyHeldFor(PayTeam(p, team, 2, teamPool, version, {user}).value.awards, user)
  {
    CreditKeepsHolds(p, team.first, 2, FirstShare(teamPool), version, user);
    CreditKeepsHolds(Pay(p, team.first, 2, FirstShare(teamPool), version, false).value, team.second, 2,
      SecondShare(teamPool), version, user);
  }

  lemma {:induction false} CreditKeepsHolds(p: Purse, user: UserId, placement: nat, amount: nat, version: nat,
      held: UserId)
    requires OnlyHeldFor(p.awards, held) && Pay(p, user, placement, amount, version, false).Ok?
    ensures OnlyHeldFor(Pay(p, user, placement, amount, version, false).value.awards, held)
  {
    var q := Pay(p, user, placement, amount, version, false).value;
    var i :| 0 <= i < |p.awards| && p.awards[i].status == Held;
    assert q.awards[i].status == Held;
  }
}
