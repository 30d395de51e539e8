/**
 * The money ledger: every movement of `User.balance` is one signed row.
 * Amounts are integer cents. `R` is the type of the unique row references.
 */
module Ledger {
  import opened Common

  datatype Kind = Prize | EntryFee | Refund | Adjustment | Purchase | Other

  datatype Row<R> = Row(
    user: UserId,
    kind: Kind,
    amount: int,
    balanceBefore: int,
    balanceAfter: int,
    reference: Option<R>,
    affectsBalance: bool)

  datatype Entry<R> = Entry(
    user: UserId,
    kind: Kind,
    amount: int,
    reference: Option<R>,
    allowNegativeBalance: bool)

  datatype Refusal = UserNotFound | InsufficientBalance | DuplicateReference

  datatype Book<R> = Book(balances: map<UserId, int>, rows: seq<Row<R>>)

  /** The floor the update demands of the balance; a credit is given the floor 0. */
  function Floor<R>(entry: Entry<R>): int {
    if entry.amount < 0 then -entry.amount else 0
  }

  predicate HasReference<R(==)>(rows: seq<Row<R>>, reference: R) {
    exists i :: 0 <= i < |rows| && rows[i].reference == Some(reference)
  }

  function RowFor<R>(book: Book<R>, entry: Entry<R>): Row<R>
    requires entry.user in book.balances
  {
    var before := book.balances[entry.user];
    Row(entry.user, entry.kind, entry.amount, before, before + entry.amount, entry.reference, true)
  }

  /** `recordLedgerEntry`: refuse and change nothing, or append one row and move the balance. */
  function Record<R(==)>(book: Book<R>, entry: Entry<R>): Result<Book<R>, Refusal> {
    if entry.user !in book.balances then
      Err(UserNotFound)
    else if !entry.allowNegativeBalance && book.balances[entry.user] < Floor(entry) then
      Err(InsufficientBalance)
    else if entry.reference.Some? && HasReference(book.rows, entry.reference.value) then
      Err(DuplicateReference)
    else
      Ok(Book(book.balances[entry.user := book.balances[entry.user] + entry.amount],
              book.rows + [RowFor(book, entry)]))
  }

  /** Sum of the balance-affecting rows of one user, which is what the integrity check compares. */
  function Total<R>(rows: seq<Row<R>>, user: UserId): int {
    if rows == [] then 0
    else
      var last := rows[|rows| - 1];
      Total(rows[..|rows| - 1], user) + (if last.user == user && last.affectsBalance then last.amount else 0)
  }

  /** The rows of `user` among `rows`, oldest first. */
  function RowsOf<R>(rows: seq<Row<R>>, user: UserId): seq<Row<R>> {
    if rows == [] then []
    else
      var last := rows[|rows| - 1];
      var mine := RowsOf(rows[..|rows| - 1], user);
      if last.user == user then mine + [last] else mine
  }

  /** Each row is arithmetically right and starts where the previous row of that user ended. */
  ghost predicate Chained<R>(rows: seq<Row<R>>, opening: int, closing: int)
    decreases |rows|
  {
    if rows == [] then opening == closing
    else
      var last := rows[|rows| - 1];
      && last.balanceAfter == last.balanceBefore + (if last.affectsBalance then last.amount else 0)
      && last.balanceAfter == closing
      && Chained(rows[..|rows| - 1], opening, last.balanceBefore)
  }

  ghost predicate UniqueReferences<R(!new)>(rows: seq<Row<R>>) {
    forall i, j :: 0 <= i < j < |rows| && rows[i].reference.Some? ==> rows[i].reference != rows[j].reference
  }

  /** The book explains every balance, starting from `opening`. */
  ghost predicate Sound<R(!new)>(book: Book<R>, opening: map<UserId, int>) {
    && opening.Keys == book.balances.Keys
    && UniqueReferences(book.rows)
    && (forall i :: 0 <= i < |book.rows| ==> book.rows[i].user in book.balances)
    && (forall u :: u in book.balances ==> Chained(RowsOf(book.rows, u), opening[u], book.balances[u]))
  }

  lemma {:induction false} RowsOfAppend<R>(rows: seq<Row<R>>, row: Row<R>, user: UserId)
    ensures RowsOf(rows + [row], user) == if row.user == user then RowsOf(rows, user) + [row] else RowsOf(rows, user)
    ensures Total(rows + [row], user)
      == Total(rows, user) + (if row.user == user && row.affectsBalance then row.amount else 0)
  {
    assert (rows + [row])[..|rows|] == rows;
  }

  lemma {:induction false} RecordKeepsSound<R(!new)>(book: Book<R>, entry: Entry<R>, opening: map<UserId, int>)
    requires Sound(book, opening)
    ensures Record(book, entry).Ok? ==> Sound(Record(book, entry).value, opening)
  {
    if Record(book, entry).Ok? {
      var next := Record(book, entry).value;
      NewReferenceIsUnique(book.rows, RowFor(book, entry));
      forall u | u in next.balances
        ensures Chained(RowsOf(next.rows, u), opening[u], next.balances[u])
      {
        RowExtendsChain(book, RowFor(book, entry), u, opening[u]);
      }
    }
  }

  lemma {:induction false} NewReferenceIsUnique<R(!new)>(rows: seq<Row<R>>, row: Row<R>)
    requires UniqueReferences(rows) && (row.reference.Some? ==> !HasReference(rows, row.reference.value))
    ensures UniqueReferences(rows + [row])
  {
  }

  lemma {:induction false} RowExtendsChain<R>(book: Book<R>, row: Row<R>, user: UserId, opening: int)
    requires user in book.balances && Chained(RowsOf(book.rows, user), opening, book.balances[user])
    requires row.affectsBalance && row.balanceAfter == row.balanceBefore + row.amount
    requires row.user == user ==> row.balanceBefore == book.balances[user]
    ensures Chained(RowsOf(book.rows + [row], user), opening,
      if row.user == user then row.balanceAfter else book.balances[user])
  {
    RowsOfAppend(book.rows, row, user);
    var mine := RowsOf(book.rows, user);
    assert (mine + [row])[..|mine|] == mine;
  }

  /** Any sequence of ledger writes; refused writes leave the book as it was. */
  function RecordAll<R(==)>(book: Book<R>, entries: seq<Entry<R>>): Book<R>
    decreases |entries|
  {
    if entries == [] then book
    else
      var rest := RecordAll(book, entries[..|entries| - 1]);
      var outcome := Record(rest, entries[|entries| - 1]);
      if outcome.Ok? then outcome.value else rest
  }

  lemma {:induction false} ChainTotals<R(!new)>(rows: seq<Row<R>>, user: UserId, opening: int, closing: int)
    requires Chained(RowsOf(rows, user), opening, closing)
    ensures closing == opening + Total(rows, user)
    decreases |rows|
  {
    if rows != [] {
      var init := rows[..|rows| - 1];
      var last := rows[|rows| - 1];
      if last.user == user {
        var mine := RowsOf(init, user);
        assert RowsOf(rows, user) == mine + [last];
        assert (mine + [last])[..|mine|] == mine;
        ChainTotals(init, user, opening, last.balanceBefore);
      } else {
        ChainTotals(init, user, opening, closing);
      }
    }
  }

  /**
   * Balance integrity over every run: each balance is the opening balance plus
   * the user's rows, the rows form one contiguous chain, and no reference repeats.
   */
  lemma {:induction false} EveryRunIsSound<R(!new)>(book: Book<R>, entries: seq<Entry<R>>, opening: map<UserId, int>)
    requires Sound(book, opening)
    ensures Sound(RecordAll(book, entries), opening)
    ensures forall u :: u in opening ==>
      RecordAll(book, entries).balances[u] == opening[u] + Total(RecordAll(book, entries).rows, u)
    decreases |entries|
  {
    if entries != [] {
      var init := entries[..|entries| - 1];
      EveryRunIsSound(book, init, opening);
      RecordKeepsSound(RecordAll(book, init), entries[|entries| - 1], opening);
    }
    var last := RecordAll(book, entries);
    forall u | u in opening ensures last.balances[u] == opening[u] + Total(last.rows, u) {
      ChainTotals(last.rows, u, opening[u], last.balances[u]);
    }
  }

  /**
   * A write that does not allow a negative balance never leaves one, and is
   * accepted exactly when the balance covers it. The floor of 0 makes a CREDIT
   * to an overdrawn account a refusal.
   */
  lemma {:induction false} AcceptedExactlyWhenCovered<R>(book: Book<R>, entry: Entry<R>)
    requires entry.user in book.balances && !entry.allowNegativeBalance
    requires entry.reference.Some? ==> !HasReference(book.rows, entry.reference.value)
    ensures Record(book, entry).Ok? <==> 0 <= book.balances[entry.user] && 0 <= book.balances[entry.user] + entry.amount
    ensures Record(book, entry).Ok? ==> 0 <= Record(book, entry).value.balances[entry.user]
  {
  }

  /**
   * An accepted write appends the one row that tells of it and moves the one balance by its
   * amount; a refused one has the first reason that applies.
   */
  lemma {:induction false} WriteIsRight<R>(book: Book<R>, entry: Entry<R>)
    ensures Record(book, entry).Ok? ==>
      var e, n := Record(book, entry).value, |book.rows|;
      && entry.user in book.balances
      && e.balances == book.balances[entry.user := book.balances[entry.user] + entry.amount]
      && |e.rows| == n + 1 && e.rows[..n] == book.rows
      && e.rows[n].user == entry.user && e.rows[n].kind == entry.kind && e.rows[n].amount == entry.amount
      && e.rows[n].reference == entry.reference && e.rows[n].affectsBalance
      && e.rows[n].balanceBefore == book.balances[entry.user] && e.rows[n].balanceAfter == e.balances[entry.user]
    ensures Record(book, entry) == Err(UserNotFound) <==> entry.user !in book.balances
    ensures Record(book, entry) == Err(InsufficientBalance) <==>
      entry.user in book.balances && !entry.allowNegativeBalance &&
        (book.balances[entry.user] < 0 || book.balances[entry.user] + entry.amount < 0)
    ensures Record(book, entry) == Err(DuplicateReference) ==>
      entry.reference.Some? && exists i :: 0 <= i < |book.rows| && book.rows[i].reference == entry.reference
  {
  }

  /** How many rows of a user affect the balance. */
  function Counted<R>(rows: seq<Row<R>>, user: UserId): nat {
    if rows == [] then 0
    else
      var last := rows[|rows| - 1];
      Counted(rows[..|rows| - 1], user) + (if last.user == user && last.affectsBalance then 1 else 0)
  }

  lemma {:induction false} CountedIs<R(!new)>(rows: seq<Row<R>>, user: UserId)
    ensures Counted(rows, user) == |set i | 0 <= i < |rows| && rows[i].user == user && rows[i].affectsBalance|
  {
    var at := set i | 0 <= i < |rows| && rows[i].user == user && rows[i].affectsBalance;
    if rows != [] {
      var n := |rows| - 1;
      CountedIs(rows[..n], user);
      var before := set i | 0 <= i < n && rows[..n][i].user == user && rows[..n][i].affectsBalance;
      assert at == if rows[n].user == user && rows[n].affectsBalance then before + {n} else before;
    }
  }

  datatype Issue = Issue(user: UserId, balance: int, ledgerTotal: int, difference: int, transactionCount: nat)

  predicate Reports<R(==)>(book: Book<R>, user: UserId, issue: Issue) {
    && user in book.balances && issue.user == user && issue.balance == book.balances[user]
    && issue.ledgerTotal == Total(book.rows, user) && issue.difference == issue.balance - issue.ledgerTotal != 0
    && issue.transactionCount == Counted(book.rows, user)
  }

  /** The users table with the ledger it is maintained by. */
  class LedgerTable<R(==)> {
    var balances: map<UserId, int>
    var rows: seq<Row<R>>

    function Value(): Book<R>
      reads this
    {
      Book(balances, rows)
    }

    constructor (balances: map<UserId, int>)
      ensures Value() == Book(balances, [])
    {
      this.balances := balances;
      rows := [];
    }

    /** The conditional update, the read-back and the row creation, in that order. */
    method RecordEntry(entry: Entry<R>) returns (refusal: Option<Refusal>)
      modifies this
      ensures match Record(old(Value()), entry)
              case Ok(next) => refusal == None && Value() == next
              case Err(why) => refusal == Some(why) && Value() == old(Value())
    {
      var floor := if entry.amount < 0 then -entry.amount else 0;
      var applied := entry.user in balances && (entry.allowNegativeBalance || floor <= balances[entry.user]);
      if !applied {
        refusal := Some(if entry.user !in balances then UserNotFound else InsufficientBalance);
        return;
      }
      var previous := balances;
      balances := balances[entry.user := balances[entry.user] + entry.amount];
      var balanceAfter := balances[entry.user];
      var balanceBefore := balanceAfter - entry.amount;
      var taken := false;
      if entry.reference.Some? {
        taken := ReferenceTaken(entry.reference.value);
      }
      if taken {
        balances := previous;
        return Some(DuplicateReference);
      }
      rows := rows + [Row(entry.user, entry.kind, entry.amount, balanceBefore, balanceAfter, entry.reference, true)];
      refusal := None;
    }

    method ReferenceTaken(reference: R) returns (taken: bool)
      ensures taken <==> HasReference(rows, reference)
    {
      for i := 0 to |rows|
        invariant forall j :: 0 <= j < i ==> rows[j].reference != Some(reference)
      {
        if rows[i].reference == Some(reference) {
          return true;
        }
      }
      taken := false;
    }
  }

  /**
   * `verifyLedgerIntegrity`: one issue for each listed user whose balance is not the
   * sum of their rows, in the order of the list; `at` are the positions of those users.
   */
  method VerifyIntegrity<R(==)>(book: Book<R>, users: seq<UserId>) returns (issues: seq<Issue>, ghost at: seq<nat>)
    requires forall i :: 0 <= i < |users| ==> users[i] in book.balances
    ensures |at| == |issues| && forall j, k :: 0 <= j < k < |at| ==> at[j] < at[k]
    ensures forall k :: 0 <= k < |at| ==> at[k] < |users| && Reports(book, users[at[k]], issues[k])
    ensures forall i :: 0 <= i < |users| ==> (i in at <==> book.balances[users[i]] != Total(book.rows, users[i]))
    ensures issues == [] <==> forall i :: 0 <= i < |users| ==> book.balances[users[i]] == Total(book.rows, users[i])
  {
    issues, at := [], [];
    for n := 0 to |users|
      invariant |at| == |issues| && forall j, k :: 0 <= j < k < |at| ==> at[j] < at[k]
      invariant forall k :: 0 <= k < |at| ==> at[k] < n && Reports(book, users[at[k]], issues[k])
      invariant forall i :: 0 <= i < n ==> (i in at <==> book.balances[users[i]] != Total(book.rows, users[i]))
      invariant issues == [] <==> forall i :: 0 <= i < n ==> book.balances[users[i]] == Total(book.rows, users[i])
    {
      var total := Total(book.rows, users[n]);
      var difference := book.balances[users[n]] - total;
      if difference != 0 {
        issues := issues + [Issue(users[n], book.balances[users[n]], total, difference, Counted(book.rows, users[n]))];
        at := at + [n];
      }
    }
  }
}
