/** The one-off ledger backfill: opening balances and entry fees written as history, without moving a balance. */
module Backfill {
  import opened Common
  import opened Ledger

  datatype Ref = OpeningRef(user: UserId) | FeeRef(tournament: nat, user: UserId) | OtherRef(id: nat)

  datatype Account = Account(id: UserId, balance: int)

  /** A registration whose tournament charges a fee; the table has one per tournament and user. */
  datatype Fee = Fee(tournament: nat, amount: nat)

  datatype Summary = Summary(examined: nat, openings: nat, fees: nat, skipped: nat)

  // ---- the rows of one user ------------------------------------------------------------

  function TotalFees(fees: seq<Fee>): nat {
    if fees == [] then 0 else TotalFees(fees[..|fees| - 1]) + fees[|fees| - 1].amount
  }

  function OpeningRow(user: UserId, opening: int): Row<Ref> {
    Row(user, Adjustment, opening, 0, opening, Some(OpeningRef(user)), true)
  }

  function FeeRow(user: UserId, fee: Fee, before: int): Row<Ref> {
    Row(user, EntryFee, 0 - fee.amount, before, before - fee.amount, Some(FeeRef(fee.tournament, user)), true)
  }

  /** The fee rows in order, starting from the running balance `opening`. */
  function FeeRows(user: UserId, fees: seq<Fee>, opening: int): seq<Row<Ref>> {
    if fees == [] then []
    else
      var n := |fees| - 1;
      FeeRows(user, fees[..n], opening) + [FeeRow(user, fees[n], opening - TotalFees(fees[..n]))]
  }

  function Opening(account: Account, fees: seq<Fee>): int {
    account.balance + TotalFees(fees)
  }

  /** Everything written for a user without ledger rows; nothing when there is nothing to reconcile. */
  function History(account: Account, fees: seq<Fee>): seq<Row<Ref>> {
    var opening := Opening(account, fees);
    (if opening != 0 then [OpeningRow(account.id, opening)] else []) + FeeRows(account.id, fees, opening)
  }

  predicate HasRows(rows: seq<Row<Ref>>, user: UserId) {
    exists i :: 0 <= i < |rows| && rows[i].user == user
  }

  function Charged(fees: map<UserId, seq<Fee>>, user: UserId): seq<Fee> {
    if user in fees then fees[user] else []
  }

  function AfterUser(rows: seq<Row<Ref>>, account: Account, fees: map<UserId, seq<Fee>>): seq<Row<Ref>> {
    if HasRows(rows, account.id) then rows else rows + History(account, Charged(fees, account.id))
  }

  function AfterAll(rows: seq<Row<Ref>>, accounts: seq<Account>, fees: map<UserId, seq<Fee>>): seq<Row<Ref>> {
    if accounts == [] then rows
    else AfterUser(AfterAll(rows, accounts[..|accounts| - 1], fees), accounts[|accounts| - 1], fees)
  }

  // ---- what the history adds up to ------------------------------------------------------------

  lemma {:induction false} FeesStartLower(fees: seq<Fee>, n: nat)
    requires n <= |fees|
    ensures TotalFees(fees[..n]) <= TotalFees(fees)
    decreases |fees|
  {
    if n < |fees| {
      assert fees[..|fees| - 1][..n] == fees[..n];
      FeesStartLower(fees[..|fees| - 1], n);
    } else {
      assert fees[..n] == fees;
    }
  }

  ghost predicate OnlyOf(rows: seq<Row<Ref>>, user: UserId) {
    forall i :: 0 <= i < |rows| ==> rows[i].user == user
  }

  lemma {:induction false} RowsOfOwn(rows: seq<Row<Ref>>, more: seq<Row<Ref>>, user: UserId)
    requires OnlyOf(more, user)
    ensures RowsOf(rows + more, user) == RowsOf(rows, user) + more
    decreases |more|
  {
    if more == [] {
      assert rows + more == rows && RowsOf(rows, user) + [] == RowsOf(rows, user);
    } else {
      var init, last := more[..|more| - 1], more[|more| - 1];
      RowsOfOwn(rows, init, user);
      assert rows + more == (rows + init) + [last];
      RowsOfAppend(rows + init, last, user);
      assert RowsOf(rows, user) + more == (RowsOf(rows, user) + init) + [last];
    }
  }

  lemma {:induction false} RowsOfOthers(rows: seq<Row<Ref>>, more: seq<Row<Ref>>, user: UserId, other: UserId)
    requires OnlyOf(more, other) && other != user
    ensures RowsOf(rows + more, user) == RowsOf(rows, user)
    decreases |more|
  {
    if more == [] {
      assert rows + more == rows;
    } else {
      var init, last := more[..|more| - 1], more[|more| - 1];
      RowsOfOthers(rows, init, user, other);
      assert rows + more == (rows + init) + [last];
      RowsOfAppend(rows + init, last, user);
    }
  }

  lemma {:induction false} FeeRowsChain(user: UserId, fees: seq<Fee>, opening: int)
    ensures OnlyOf(FeeRows(user, fees, opening), user)
    ensures Chained(FeeRows(user, fees, opening), opening, opening - TotalFees(fees))
    ensures forall i :: 0 <= i < |FeeRows(user, fees, opening)| ==>
      opening - TotalFees(fees) <= FeeRows(user, fees, opening)[i].balanceAfter <=
        FeeRows(user, fees, opening)[i].balanceBefore
    decreases |fees|
  {
    if fees != [] {
      var n := |fees| - 1;
      FeeRowsChain(user, fees[..n], opening);
      var init := FeeRows(user, fees[..n], opening);
      assert FeeRows(user, fees, opening)[..|init|] == init;
    }
  }

  lemma {:induction false} ChainFrom(row: Row<Ref>, rows: seq<Row<Ref>>, closing: int)
    requires row.affectsBalance && row.balanceAfter == row.balanceBefore + row.amount &&
      Chained(rows, row.balanceAfter, closing)
    ensures Chained([row] + rows, row.balanceBefore, closing)
    decreases |rows|
  {
    if rows == [] {
      assert [row] + rows == [row] && [row][..0] == [];
    } else {
      var init, last := rows[..|rows| - 1], rows[|rows| - 1];
      ChainFrom(row, init, last.balanceBefore);
      assert ([row] + rows)[..|rows|] == [row] + init;
    }
  }

  /** The history chains from zero to exactly the untouched balance and never runs below it. */
  lemma {:induction false} HistoryChains(account: Account, fees: seq<Fee>)
    ensures OnlyOf(History(account, fees), account.id)
    ensures Chained(History(account, fees), 0, account.balance)
    ensures forall i :: 0 <= i < |History(account, fees)| ==> History(account, fees)[i].balanceAfter >= account.balance
  {
    var opening := Opening(account, fees);
    FeeRowsChain(account.id, fees, opening);
    if opening != 0 {
      ChainFrom(OpeningRow(account.id, opening), FeeRows(account.id, fees, opening), account.balance);
    } else {
      assert History(account, fees) == FeeRows(account.id, fees, opening);
    }
  }

  // ---- what the script achieves --------------------------------------------------------------------

  ghost predicate DistinctAccounts(accounts: seq<Account>) {
    forall i, j :: 0 <= i < j < |accounts| ==> accounts[i].id != accounts[j].id
  }

  lemma {:induction false} HasRowsIsRowsOf(rows: seq<Row<Ref>>, user: UserId)
    ensures HasRows(rows, user) <==> RowsOf(rows, user) != []
    decreases |rows|
  {
    if rows != [] {
      var init := rows[..|rows| - 1];
      HasRowsIsRowsOf(init, user);
      if HasRows(rows, user) && rows[|rows| - 1].user != user {
        var i :| 0 <= i < |rows| && rows[i].user == user;
        assert init[i].user == user;
      }
      if HasRows(init, user) {
        var i :| 0 <= i < |init| && init[i].user == user;
        assert rows[i].user == user;
      }
    }
  }

  lemma {:induction false} RowsAfterUser(rows: seq<Row<Ref>>, account: Account, fees: map<UserId, seq<Fee>>,
      user: UserId)
    ensures RowsOf(AfterUser(rows, account, fees), user)
         == if account.id == user && RowsOf(rows, user) == [] then History(account, Charged(fees, user))
           else RowsOf(rows, user)
  {
    var history := History(account, Charged(fees, account.id));
    HasRowsIsRowsOf(rows, account.id);
    HistoryChains(account, Charged(fees, account.id));
    if account.id == user {
      RowsOfOwn(rows, history, user);
      assert [] + history == history;
    } else {
      RowsOfOthers(rows, history, user, account.id);
    }
  }

  lemma {:induction false} OneMoreAccount(rows: seq<Row<Ref>>, accounts: seq<Account>, fees: map<UserId, seq<Fee>>,
      n: nat)
    requires 0 < n <= |accounts|
    ensures AfterAll(rows, accounts[..n], fees)
      == AfterUser(AfterAll(rows, accounts[..n - 1], fees), accounts[n - 1], fees)
  {
    assert accounts[..n][..n - 1] == accounts[..n - 1];
  }

  /** What the first `n` accounts leave of the rows of account `i`: what was there, or the history if nothing was. */
  function Expected(rows: seq<Row<Ref>>, accounts: seq<Account>, fees: map<UserId, seq<Fee>>, n: nat,
      i: nat): seq<Row<Ref>>
    requires i < |accounts|
  {
    var own := RowsOf(rows, accounts[i].id);
    if i < n && own == [] then History(accounts[i], Charged(fees, accounts[i].id)) else own
  }

  lemma {:induction false} OneMoreExpected(rows: seq<Row<Ref>>, before: seq<Row<Ref>>, accounts: seq<Account>,
      fees: map<UserId, seq<Fee>>, n: nat, i: nat)
    requires 0 < n <= |accounts| && i < |accounts| && DistinctAccounts(accounts)
    requires RowsOf(before, accounts[i].id) == Expected(rows, accounts, fees, n - 1, i)
    ensures RowsOf(AfterUser(before, accounts[n - 1], fees), accounts[i].id) == Expected(rows, accounts, fees, n, i)
  {
    RowsAfterUser(before, accounts[n - 1], fees, accounts[i].id);
    assert i != n - 1 ==> accounts[i].id != accounts[n - 1].id;
  }

  /** A user's rows after the run. */
  lemma {:induction false} RowsAfterAll(rows: seq<Row<Ref>>, accounts: seq<Account>, fees: map<UserId, seq<Fee>>,
      n: nat, i: nat)
    requires n <= |accounts| && i < |accounts| && DistinctAccounts(accounts)
    ensures RowsOf(AfterAll(rows, accounts[..n], fees), accounts[i].id) == Expected(rows, accounts, fees, n, i)
  {
    if n == 0 {
      assert accounts[..0] == [];
    } else {
      var before := AfterAll(rows, accounts[..n - 1], fees);
      RowsAfterAll(rows, accounts, fees, n - 1, i);
      OneMoreExpected(rows, before, accounts, fees, n, i);
      OneMoreAccount(rows, accounts, fees, n);
    }
  }

  /**
   * Every user who had no ledger rows ends with one contiguous chain from zero to
   * the untouched balance, whose rows sum to it; users with rows keep exactly those.
   */
  lemma {:induction false} BackfillReconciles(rows: seq<Row<Ref>>, accounts: seq<Account>, fees: map<UserId, seq<Fee>>,
      i: nat)
    requires DistinctAccounts(accounts) && i < |accounts|
    ensures var after := AfterAll(rows, accounts, fees); var account := accounts[i];
      && (RowsOf(rows, account.id) != [] ==> RowsOf(after, account.id) == RowsOf(rows, account.id))
      && (RowsOf(rows, account.id) == [] ==>
            && Chained(RowsOf(after, account.id), 0, account.balance)
            && Total(after, account.id) == account.balance
            && forall k :: 0 <= k < |RowsOf(after, account.id)| ==>
               RowsOf(after, account.id)[k].balanceAfter >= account.balance)
  {
    RowsAfterAll(rows, accounts, fees, |accounts|, i);
    assert accounts[..|accounts|] == accounts;
    HistoryChains(accounts[i], Charged(fees, accounts[i].id));
    if RowsOf(rows, accounts[i].id) == [] {
      ChainTotals(AfterAll(rows, accounts, fees), accounts[i].id, 0, accounts[i].balance);
    }
  }

  /** A second run writes nothing. */
  lemma {:induction false} SecondRunWritesNothing(rows: seq<Row<Ref>>, accounts: seq<Account>,
      fees: map<UserId, seq<Fee>>, n: nat)
    requires DistinctAccounts(accounts) && n <= |accounts|
    ensures AfterAll(AfterAll(rows, accounts, fees), accounts[..n], fees) == AfterAll(rows, accounts, fees)
  {
    if n > 0 {
      SecondRunWritesNothing(rows, accounts, fees, n - 1);
      assert accounts[..n][..n - 1] == accounts[..n - 1];
      var after, account := AfterAll(rows, accounts, fees), accounts[n - 1];
      RowsAfterAll(rows, accounts, fees, |accounts|, n - 1);
      assert accounts[..|accounts|] == accounts;
      HasRowsIsRowsOf(after, account.id);
      assert RowsOf(after, account.id) == [] ==> after + History(account, Charged(fees, account.id)) == after;
    }
  }

  // ---- references -------------------------------------------------------------------------------------

  /** References made by the backfill name their own user. */
  ghost predicate OwnReferences(rows: seq<Row<Ref>>) {
    forall i :: 0 <= i < |rows| && rows[i].reference.Some? && !rows[i].reference.value.OtherRef? ==>
      rows[i].user == rows[i].reference.value.user
  }

  ghost predicate DistinctTournaments(fees: seq<Fee>) {
    forall i, j :: 0 <= i < j < |fees| ==> fees[i].tournament != fees[j].tournament
  }

  lemma {:induction false} FeeRowAt(user: UserId, fees: seq<Fee>, opening: int, i: nat)
    requires i < |fees|
    ensures |FeeRows(user, fees, opening)| == |fees|
    ensures FeeRows(user, fees, opening)[i].reference == Some(FeeRef(fees[i].tournament, user))
    decreases |fees|
  {
    var n := |fees| - 1;
    FeeRowsLength(user, fees, opening);
    FeeRowsLength(user, fees[..n], opening);
    if i < n { FeeRowAt(user, fees[..n], opening, i); }
  }

  lemma {:induction false} FeeRowsLength(user: UserId, fees: seq<Fee>, opening: int)
    ensures |FeeRows(user, fees, opening)| == |fees|
  {
    if fees != [] { FeeRowsLength(user, fees[..|fees| - 1], opening); }
  }

  lemma {:induction false} FeeRowTells(user: UserId, fees: seq<Fee>, opening: int, i: nat)
    requires i < |fees|
    ensures |FeeRows(user, fees, opening)| == |fees|
    ensures var row := FeeRows(user, fees, opening)[i];
      row.user == user && row.kind == EntryFee && row.amount == 0 - fees[i].amount && row.affectsBalance
    decreases |fees|
  {
    var n := |fees| - 1;
    FeeRowsLength(user, fees, opening);
    FeeRowsLength(user, fees[..n], opening);
    if i < n { FeeRowTells(user, fees[..n], opening, i); }
  }

  /**
   * A user who had no rows gets one entry-fee row for every fee, in order and for that fee,
   * and before them an opening row exactly when balance and fees do not cancel out.
   */
  lemma {:induction false} EveryFeeIsWritten(rows: seq<Row<Ref>>, accounts: seq<Account>, fees: map<UserId, seq<Fee>>,
      i: nat, k: nat)
    requires DistinctAccounts(accounts) && i < |accounts| && RowsOf(rows, accounts[i].id) == []
    ensures var user, own := accounts[i].id, RowsOf(AfterAll(rows, accounts, fees), accounts[i].id);
      var charged := if user in fees then fees[user] else [];
      var opening := accounts[i].balance + TotalFees(charged);
      var shift := if opening != 0 then 1 else 0;
      && |own| == shift + |charged|
      && (opening != 0 ==>
         && own[0].user == user && own[0].kind == Adjustment && own[0].amount == opening
         && own[0].affectsBalance && own[0].reference == Some(OpeningRef(user)))
      && (k < |charged| ==> var row := own[shift + k];
         && row.user == user && row.kind == EntryFee && row.amount == 0 - charged[k].amount && row.affectsBalance
         && row.reference == Some(FeeRef(charged[k].tournament, user)))
  {
    var account := accounts[i];
    var charged := Charged(fees, account.id);
    RowsAfterAll(rows, accounts, fees, |accounts|, i);
    assert accounts[..|accounts|] == accounts;
    HistoryLength(account, charged);
    if k < |charged| {
      FeeRowAt(account.id, charged, Opening(account, charged), k);
      FeeRowTells(account.id, charged, Opening(account, charged), k);
    }
  }

  /** The unique constraint on references never stops the script. */
  lemma {:induction false} HistoryFits(rows: seq<Row<Ref>>, account: Account, fees: seq<Fee>)
    requires UniqueReferences(rows) && OwnReferences(rows) && !HasRows(rows, account.id) && DistinctTournaments(fees)
    ensures UniqueReferences(rows + History(account, fees)) && OwnReferences(rows + History(account, fees))
  {
    var more := History(account, fees);
    var shift := if Opening(account, fees) != 0 then 1 else 0;
    HistoryChains(account, fees);
    HistoryReferences(account, fees, shift);
    forall i, j | 0 <= i < j < |more| ensures more[i].reference != more[j].reference {
      assert i < shift || fees[i - shift].tournament != fees[j - shift].tournament;
    }
  }

  /** The references of a history, in order. */
  lemma {:induction false} HistoryReferences(account: Account, fees: seq<Fee>, shift: nat)
    requires shift == if Opening(account, fees) != 0 then 1 else 0
    ensures |History(account, fees)| == shift + |fees|
    ensures forall i :: 0 <= i < shift + |fees| ==>
      History(account, fees)[i].reference
        == Some(if i < shift then OpeningRef(account.id) else FeeRef(fees[i - shift].tournament, account.id))
  {
    FeeRowsLength(account.id, fees, Opening(account, fees));
    forall i | shift <= i < shift + |fees|
      ensures History(account, fees)[i].reference == Some(FeeRef(fees[i - shift].tournament, account.id))
    {
      FeeRowAt(account.id, fees, Opening(account, fees), i - shift);
    }
  }

  lemma {:induction false} EveryHistoryFits(rows: seq<Row<Ref>>, accounts: seq<Account>, fees: map<UserId, seq<Fee>>)
    requires UniqueReferences(rows) && OwnReferences(rows) && forall u :: u in fees ==> DistinctTournaments(fees[u])
    ensures UniqueReferences(AfterAll(rows, accounts, fees)) && OwnReferences(AfterAll(rows, accounts, fees))
    decreases |accounts|
  {
    if accounts != [] {
      var init, account := accounts[..|accounts| - 1], accounts[|accounts| - 1];
      EveryHistoryFits(rows, init, fees);
      if !HasRows(AfterAll(rows, init, fees), account.id) {
        HistoryFits(AfterAll(rows, init, fees), account, Charged(fees, account.id));
      }
    }
  }

  /** The account already has rows when its turn comes. */
  ghost predicate Skips(rows: seq<Row<Ref>>, accounts: seq<Account>, fees: map<UserId, seq<Fee>>, i: int) {
    0 <= i < |accounts| && HasRows(AfterAll(rows, accounts[..i], fees), accounts[i].id)
  }

  /** The account gets an opening row. */
  ghost predicate Opens(rows: seq<Row<Ref>>, accounts: seq<Account>, fees: map<UserId, seq<Fee>>, i: int) {
    0 <= i < |accounts| && !Skips(rows, accounts, fees, i) && Opening(accounts[i], Charged(fees, accounts[i].id)) != 0
  }

  /** How many of the first `n` accounts are skipped, and how many get an opening row. */
  ghost function SkippedAmong(rows: seq<Row<Ref>>, accounts: seq<Account>, fees: map<UserId, seq<Fee>>, n: nat): nat {
    if n == 0 then 0
      else SkippedAmong(rows, accounts, fees, n - 1) + (if Skips(rows, accounts, fees, n - 1) then 1 else 0)
  }

  ghost function OpenedAmong(rows: seq<Row<Ref>>, accounts: seq<Account>, fees: map<UserId, seq<Fee>>, n: nat): nat {
    if n == 0 then 0
      else OpenedAmong(rows, accounts, fees, n - 1) + (if Opens(rows, accounts, fees, n - 1) then 1 else 0)
  }

  lemma {:induction false} HistoryLength(account: Account, fees: seq<Fee>)
    ensures |History(account, fees)| == |fees| + (if Opening(account, fees) != 0 then 1 else 0)
  {
    FeeRowsLength(account.id, fees, Opening(account, fees));
  }

  // ---- the script ---------------------------------------------------------------------------------------

  /** `backfillTransactions` over the ledger rows; balances are only read. */
  method BackfillTransactions(rows: seq<Row<Ref>>, accounts: seq<Account>, fees: map<UserId, seq<Fee>>)
    returns (after: seq<Row<Ref>>, summary: Summary)
    ensures after == AfterAll(rows, accounts, fees)
    ensures summary.examined == |accounts| && |after| == |rows| + summary.openings + summary.fees
    ensures summary.skipped == SkippedAmong(rows, accounts, fees, |accounts|)
    ensures summary.openings == OpenedAmong(rows, accounts, fees, |accounts|)
  {
    after := rows;
    summary := Summary(0, 0, 0, 0);
    for n := 0 to |accounts|
      invariant after == AfterAll(rows, accounts[..n], fees)
      invariant summary.examined == n && |after| == |rows| + summary.openings + summary.fees
      invariant summary.skipped == SkippedAmong(rows, accounts, fees, n) &&
        summary.openings == OpenedAmong(rows, accounts, fees, n)
    {
      assert accounts[..n + 1][..n] == accounts[..n];
      summary := summary.(examined := summary.examined + 1);
      var user := accounts[n];
      var existing := HasRows(after, user.id);
      if existing {
        summary := summary.(skipped := summary.skipped + 1);
      } else {
        var charged := Charged(fees, user.id);
        var written := WriteHistory(user, charged);
        HistoryLength(user, charged);
        after := after + written;
        summary := summary.(openings := summary.openings + (|written| - |charged|), fees := summary.fees + |charged|);
      }
    }
    assert accounts[..|accounts|] == accounts;
  }

  /** The transaction for one user, with its running balance. */
  method WriteHistory(user: Account, fees: seq<Fee>) returns (written: seq<Row<Ref>>)
    ensures written == History(user, fees)
  {
    var totalFees: nat := 0;
    for i := 0 to |fees|
      invariant totalFees == TotalFees(fees[..i])
    {
      assert fees[..i + 1][..i] == fees[..i];
      totalFees := totalFees + fees[i].amount;
    }
    assert fees[..|fees|] == fees;
    var opening := user.balance + totalFees;
    written := [];
    if opening == 0 && |fees| == 0 {
      return;
    }
    var running := 0;
    if opening != 0 {
      written := [Row(user.id, Adjustment, opening, running, opening, Some(OpeningRef(user.id)), true)];
      running := opening;
    }
    ghost var start := written;
    for i := 0 to |fees|
      invariant written == start + FeeRows(user.id, fees[..i], opening)
      invariant running == opening - TotalFees(fees[..i])
    {
      assert fees[..i + 1][..i] == fees[..i];
      var before := running;
      var after := before - fees[i].amount;
      written := written +
        [Row(user.id, EntryFee, 0 - fees[i].amount, before, after, Some(FeeRef(fees[i].tournament, user.id)), true)];
      running := after;
    }
    assert fees[..|fees|] == fees;
  }

  // ---- reportIntegrity ------------------------------------------------------------------------------------

  /** Sum of all rows of a user, whether or not they moved the balance. */
  function PlainTotal(rows: seq<Row<Ref>>, user: UserId): int {
    if rows == [] then 0
    else PlainTotal(rows[..|rows| - 1], user) + (if rows[|rows| - 1].user == user then rows[|rows| - 1].amount else 0)
  }

  /** Sum of the rows that recorded money without moving the balance, such as external prize payouts. */
  function OutsideTotal(rows: seq<Row<Ref>>, user: UserId): int {
    if rows == [] then 0
    else
      var last := rows[|rows| - 1];
      OutsideTotal(rows[..|rows| - 1], user) + (if last.user == user && !last.affectsBalance then last.amount else 0)
  }

  ghost function DriftedAmong(rows: seq<Row<Ref>>, accounts: seq<Account>, n: nat): set<int>
    requires n <= |accounts|
  {
    set i | 0 <= i < n && accounts[i].balance != PlainTotal(rows, accounts[i].id)
  }

  /** The number of users whose balance is not the plain sum of their rows. */
  method ReportIntegrity(rows: seq<Row<Ref>>, accounts: seq<Account>) returns (drifted: nat)
    ensures drifted == |DriftedAmong(rows, accounts, |accounts|)|
    ensures drifted == 0
      <==> forall i :: 0 <= i < |accounts| ==> accounts[i].balance == PlainTotal(rows, accounts[i].id)
  {
    drifted := 0;
    for n := 0 to |accounts|
      invariant drifted == |DriftedAmong(rows, accounts, n)|
      invariant drifted == 0 <==> forall i :: 0 <= i < n ==> accounts[i].balance == PlainTotal(rows, accounts[i].id)
    {
      assert DriftedAmong(rows, accounts, n + 1)
          == DriftedAmong(rows, accounts, n) +
            (if accounts[n].balance != PlainTotal(rows, accounts[n].id) then {n as int} else {});
      if accounts[n].balance - PlainTotal(rows, accounts[n].id) != 0 {
        drifted := drifted + 1;
      }
    }
  }

  /**
   * The script's own check and the service's integrity check differ by the rows
   * that do not affect a balance: they agree on a user exactly when those rows sum to zero.
   */
  lemma {:induction false} ChecksAgreeExactly(rows: seq<Row<Ref>>, user: UserId)
    ensures PlainTotal(rows, user) == Total(rows, user) + OutsideTotal(rows, user)
    ensures PlainTotal(rows, user) == Total(rows, user) <==> OutsideTotal(rows, user) == 0
  {
    if rows != [] { ChecksAgreeExactly(rows[..|rows| - 1], user); }
  }
}
