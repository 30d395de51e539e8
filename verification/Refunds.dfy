/** Refunding the entry fees of a cancelled tournament, matched by ledger reference. */
module Refunds {
  import opened Common
  import opened Ledger

  const FEE_PREFIX := "entry_fee:"
  const REFUND_PREFIX := "refund:"

  predicate HasFeePrefix(s: string) {
    |FEE_PREFIX| <= |s| && s[..|FEE_PREFIX|] == FEE_PREFIX
  }

  /** `reference.replace(/^entry_fee:/, 'refund:')`: any other reference stays as it is. */
  function RefundReference(s: string): string {
    if HasFeePrefix(s) then REFUND_PREFIX + s[|FEE_PREFIX|..] else s
  }

  lemma {:induction false} RefundReferencesDiffer(a: string, b: string)
    requires HasFeePrefix(a) && HasFeePrefix(b) && RefundReference(a) == RefundReference(b)
    ensures a == b
  {
    assert RefundReference(a)[|REFUND_PREFIX|..] == a[|FEE_PREFIX|..];
    assert RefundReference(b)[|REFUND_PREFIX|..] == b[|FEE_PREFIX|..];
    assert a == a[..|FEE_PREFIX|] + a[|FEE_PREFIX|..] && b == b[..|FEE_PREFIX|] + b[|FEE_PREFIX|..];
  }

  lemma {:induction false} RefundIsNoFee(a: string, b: string)
    requires HasFeePrefix(a) && HasFeePrefix(b)
    ensures RefundReference(a) != b
  {
    assert RefundReference(a)[0] == 'r' && b[0] == b[..|FEE_PREFIX|][0] == 'e';
  }

  function RefundEntry(fee: Row<string>, reference: string): Entry<string> {
    Entry(fee.user, Refund, 0 - fee.amount, Some(reference), false)
  }

  /** A fee row still to be paid back. */
  predicate Due(rows: seq<Row<string>>, fee: Row<string>) {
    fee.reference.Some? && !HasReference(rows, RefundReference(fee.reference.value))
  }

  /** The refund loop over the tournament's ENTRY_FEE rows; one refusal undoes everything. */
  function RefundAll(book: Book<string>, fees: seq<Row<string>>): Result<Book<string>, Refusal> {
    if fees == [] then Ok(book) else RefundNext(RefundAll(book, fees[..|fees| - 1]), fees[|fees| - 1])
  }

  /** One round of the loop. */
  function RefundNext(outcome: Result<Book<string>, Refusal>, fee: Row<string>): Result<Book<string>, Refusal> {
    match outcome
    case Err(why) => Err(why)
    case Ok(b) => if !Due(b.rows, fee) then Ok(b) else Record(b, RefundEntry(fee, RefundReference(fee.reference.value)))
  }

  // ---- what the loop achieves ------------------------------------------------------------

  /** Fee rows as they were debited: of existing users, signed negative, under distinct references. */
  ghost predicate Debited(book: Book<string>, fees: seq<Row<string>>) {
    && (forall i :: 0 <= i < |fees| ==> fees[i] in book.rows && fees[i].user in book.balances && fees[i].amount <= 0)
    && (forall i, j :: 0 <= i < j < |fees| && fees[i].reference.Some? ==> fees[i].reference != fees[j].reference)
  }

  predicate PaidBack(rows: seq<Row<string>>, fee: Row<string>, k: nat)
    requires fee.reference.Some?
  {
    && k < |rows| && rows[k].reference == Some(RefundReference(fee.reference.value))
    && rows[k].user == fee.user && rows[k].amount == 0 - fee.amount
  }

  predicate RefundFor(row: Row<string>, fee: Row<string>) {
    && fee.reference.Some? && HasFeePrefix(fee.reference.value)
    && row.reference == Some(RefundReference(fee.reference.value))
  }

  /** Refunds that already exist are for the full fee. */
  ghost predicate EarlierRefundsFull(rows: seq<Row<string>>, fees: seq<Row<string>>) {
    forall i, k: nat :: 0 <= i < |fees| && k < |rows| && RefundFor(rows[k], fees[i]) ==> PaidBack(rows, fees[i], k)
  }

  /**
   * What has happened to the book after the first fees: rows were appended, references stay unique, wallets only
   * grew.
   */
  ghost predicate Grown(before: Book<string>, after: Book<string>) {
    && |before.rows| <= |after.rows| && after.rows[..|before.rows|] == before.rows
    && UniqueReferences(after.rows)
    && after.balances.Keys == before.balances.Keys
    && (forall u :: u in before.balances ==> after.balances[u] >= before.balances[u])
    && (forall k :: |before.rows| <= k < |after.rows| ==> after.rows[k].kind == Refund && after.rows[k].reference.Some?)
  }

  /** Everyone still owed a refund can be credited. */
  ghost predicate NobodyOverdrawn(book: Book<string>, fees: seq<Row<string>>) {
    forall i :: 0 <= i < |fees| && Due(book.rows, fees[i]) ==>
      fees[i].user in book.balances && book.balances[fees[i].user] >= 0
  }

  lemma {:induction false} OneMoreRefund(before: Book<string>, b: Book<string>, fee: Row<string>, after: Book<string>)
    requires Grown(before, b) && fee.user in before.balances && fee.amount <= 0 && Due(b.rows, fee)
    requires Record(b, RefundEntry(fee, RefundReference(fee.reference.value))) == Ok(after)
    ensures Grown(before, after) && PaidBack(after.rows, fee, |b.rows|)
  {
    assert after.rows[..|before.rows|] == b.rows[..|before.rows|];
  }

  /** The references of later fees are not touched by the refunds made so far. */
  ghost predicate LaterUntouched(before: Book<string>, b: Book<string>, fees: seq<Row<string>>, n: nat)
    requires n <= |fees|
  {
    forall i :: n <= i < |fees| && fees[i].reference.Some? && HasFeePrefix(fees[i].reference.value) ==>
      (Due(b.rows, fees[i]) <==> Due(before.rows, fees[i]))
  }

  /** Each of the first `n` prefixed fees has its refund row. */
  ghost predicate AllPaidBack(rows: seq<Row<string>>, fees: seq<Row<string>>, n: nat)
    requires n <= |fees|
  {
    forall i :: 0 <= i < n && fees[i].reference.Some? && HasFeePrefix(fees[i].reference.value) ==>
      exists k: nat :: PaidBack(rows, fees[i], k)
  }

  lemma {:induction false} PaidBackStays(rows: seq<Row<string>>, more: seq<Row<string>>, fees: seq<Row<string>>, n: nat)
    requires n <= |fees| && AllPaidBack(rows, fees, n) && |rows| <= |more| && more[..|rows|] == rows
    ensures AllPaidBack(more, fees, n)
  {
    forall i | 0 <= i < n && fees[i].reference.Some? && HasFeePrefix(fees[i].reference.value)
      ensures exists k: nat :: PaidBack(more, fees[i], k)
    {
      var k: nat :| PaidBack(rows, fees[i], k);
      assert more[k] == more[..|rows|][k];
      assert PaidBack(more, fees[i], k);
    }
  }

  /** A fee under a foreign reference finds its own row when it looks for its refund. */
  lemma {:induction false} ForeignReferenceIsNeverDue(book: Book<string>, fee: Row<string>)
    requires fee in book.rows && fee.reference.Some? && !HasFeePrefix(fee.reference.value)
    ensures !Due(book.rows, fee)
  {
    var i :| 0 <= i < |book.rows| && book.rows[i] == fee;
    assert book.rows[i].reference == Some(RefundReference(fee.reference.value));
  }

  lemma {:induction false} InEarlierRows(before: Book<string>, after: Book<string>, fee: Row<string>)
    requires Grown(before, after) && fee in before.rows
    ensures fee in after.rows
  {
    var i :| 0 <= i < |before.rows| && before.rows[i] == fee;
    assert after.rows[..|before.rows|][i] == after.rows[i];
  }

  /** What holds after the first `n` fees, if the loop gets that far. */
  ghost predicate Progress(book: Book<string>, fees: seq<Row<string>>, n: nat, b: Book<string>)
    requires n <= |fees|
  {
    Grown(book, b) && LaterUntouched(book, b, fees, n) && AllPaidBack(b.rows, fees, n)
  }

  lemma {:induction false} LoopProgress(book: Book<string>, fees: seq<Row<string>>, n: nat)
    requires n <= |fees| && Debited(book, fees) && UniqueReferences(book.rows) && EarlierRefundsFull(book.rows, fees)
    ensures RefundAll(book, fees[..n]).Ok? ==> Progress(book, fees, n, RefundAll(book, fees[..n]).value)
  {
    if n > 0 {
      LoopProgress(book, fees, n - 1);
      assert fees[..n][..n - 1] == fees[..n - 1];
      if RefundAll(book, fees[..n]).Ok? {
        var b, after := RefundAll(book, fees[..n - 1]).value, RefundAll(book, fees[..n]).value;
        var fee := fees[n - 1];
        InEarlierRows(book, b, fee);
        if fee.reference.Some? && !HasFeePrefix(fee.reference.value) { ForeignReferenceIsNeverDue(b, fee); }
        if Due(b.rows, fee) {
          OneMoreRefund(book, b, fee, after);
          LaterStillUntouched(book, b, fees, n, after);
          PaidBackStays(b.rows, after.rows, fees, n - 1);
        } else if fee.reference.Some? && HasFeePrefix(fee.reference.value) {
          FoundRefund(book, fees, n - 1, b);
        }
      }
    }
  }

  lemma {:induction false} LaterStillUntouched(book: Book<string>, b: Book<string>, fees: seq<Row<string>>, n: nat,
      after: Book<string>)
    requires 0 < n <= |fees| && Debited(book, fees) && LaterUntouched(book, b, fees, n - 1)
    requires fees[n - 1].reference.Some? && HasFeePrefix(fees[n - 1].reference.value)
    requires |after.rows| == |b.rows| + 1 && after.rows[..|b.rows|] == b.rows
    requires after.rows[|b.rows|].reference == Some(RefundReference(fees[n - 1].reference.value))
    ensures LaterUntouched(book, after, fees, n)
  {
    forall i | n <= i < |fees| && fees[i].reference.Some? && HasFeePrefix(fees[i].reference.value)
      ensures Due(after.rows, fees[i]) <==> Due(book.rows, fees[i])
    {
      assert Due(b.rows, fees[i]) <==> Due(book.rows, fees[i]);
      assert fees[n - 1].reference != fees[i].reference;
      OtherFeeUntouched(b.rows, after.rows, fees[n - 1].reference.value, fees[i].reference.value);
    }
  }

  lemma {:induction false} OtherFeeUntouched(rows: seq<Row<string>>, after: seq<Row<string>>, paid: string,
      other: string)
    requires HasFeePrefix(paid) && HasFeePrefix(other) && paid != other
    requires |after| == |rows| + 1 && after[..|rows|] == rows && after[|rows|].reference == Some(RefundReference(paid))
    ensures HasReference(after, RefundReference(other)) <==> HasReference(rows, RefundReference(other))
  {
    if RefundReference(paid) == RefundReference(other) { RefundReferencesDiffer(paid, other); }
    forall k | 0 <= k < |rows| ensures after[k] == rows[k] { assert after[k] == after[..|rows|][k]; }
    if HasReference(rows, RefundReference(other)) {
      var k :| 0 <= k < |rows| && rows[k].reference == Some(RefundReference(other));
      assert after[k].reference == Some(RefundReference(other));
    }
  }

  /** A prefixed fee that is not due was refunded before the loop, in full. */
  lemma {:induction false} FoundRefund(book: Book<string>, fees: seq<Row<string>>, i: nat, b: Book<string>)
    requires i < |fees| && EarlierRefundsFull(book.rows, fees) && Grown(book, b) && LaterUntouched(book, b, fees, i)
    requires fees[i].reference.Some? && HasFeePrefix(fees[i].reference.value) && !Due(b.rows, fees[i])
    ensures exists k: nat :: PaidBack(b.rows, fees[i], k)
  {
    assert !Due(book.rows, fees[i]);
    var k :| 0 <= k < |book.rows| && book.rows[k].reference == Some(RefundReference(fees[i].reference.value));
    assert RefundFor(book.rows[k], fees[i]);
    assert PaidBack(book.rows, fees[i], k);
    assert b.rows[k] == b.rows[..|book.rows|][k];
    assert PaidBack(b.rows, fees[i], k);
  }

  /** Sum of the rows under a reference. */
  function Under(rows: seq<Row<string>>, reference: string): int {
    if rows == [] then 0
    else
      var last := rows[|rows| - 1];
      Under(rows[..|rows| - 1], reference) + (if last.reference == Some(reference) then last.amount else 0)
  }

  lemma {:induction false} UnderOne(rows: seq<Row<string>>, reference: string, k: nat)
    requires UniqueReferences(rows) && k < |rows| && rows[k].reference == Some(reference)
    ensures Under(rows, reference) == rows[k].amount
    decreases |rows|
  {
    var n := |rows| - 1;
    if k < n {
      assert rows[..n][k] == rows[k];
      UnderOne(rows[..n], reference, k);
      assert rows[k].reference != rows[n].reference;
    } else {
      UnderNone(rows[..n], reference);
    }
  }

  lemma {:induction false} UnderNone(rows: seq<Row<string>>, reference: string)
    requires forall i :: 0 <= i < |rows| ==> rows[i].reference != Some(reference)
    ensures Under(rows, reference) == 0
    decreases |rows|
  {
    if rows != [] { UnderNone(rows[..|rows| - 1], reference); }
  }

  /**
   * After a cancellation, every entry fee written under an `entry_fee:` reference
   * and the refund under the paired reference belong to the same player and net
   * to zero, and each of the two references occurs once.
   */
  lemma {:induction false} FeesNetToZero(book: Book<string>, fees: seq<Row<string>>, i: nat)
    requires i < |fees| && Debited(book, fees) && UniqueReferences(book.rows) && EarlierRefundsFull(book.rows, fees)
    requires RefundAll(book, fees).Ok? && fees[i].reference.Some? && HasFeePrefix(fees[i].reference.value)
    ensures var after := RefundAll(book, fees).value; var reference := fees[i].reference.value;
      && UniqueReferences(after.rows)
      && Under(after.rows, reference) + Under(after.rows, RefundReference(reference)) == 0
      && exists k: nat :: PaidBack(after.rows, fees[i], k)
  {
    LoopProgress(book, fees, |fees|);
    assert fees[..|fees|] == fees;
    var after := RefundAll(book, fees).value;
    var k: nat :| PaidBack(after.rows, fees[i], k);
    UnderOne(after.rows, RefundReference(fees[i].reference.value), k);
    InEarlierRows(book, after, fees[i]);
    var j :| 0 <= j < |after.rows| && after.rows[j] == fees[i];
    UnderOne(after.rows, fees[i].reference.value, j);
  }

  /** Running the refunds again changes nothing. */
  lemma {:induction false} RefundingAgainChangesNothing(book: Book<string>, fees: seq<Row<string>>, n: nat)
    requires n <= |fees| && Debited(book, fees) && UniqueReferences(book.rows) && EarlierRefundsFull(book.rows, fees) &&
      RefundAll(book, fees).Ok?
    ensures RefundAll(RefundAll(book, fees).value, fees[..n]) == Ok(RefundAll(book, fees).value)
  {
    var after := RefundAll(book, fees).value;
    if n > 0 {
      RefundingAgainChangesNothing(book, fees, n - 1);
      assert fees[..n][..n - 1] == fees[..n - 1];
      LoopProgress(book, fees, |fees|);
      assert fees[..|fees|] == fees;
      var fee := fees[n - 1];
      InEarlierRows(book, after, fee);
      if fee.reference.Some? {
        if HasFeePrefix(fee.reference.value) {
          var k: nat :| PaidBack(after.rows, fee, k);
          assert HasReference(after.rows, RefundReference(fee.reference.value));
        } else {
          ForeignReferenceIsNeverDue(after, fee);
        }
      }
    }
  }

  lemma {:induction false} RowsOnlyGrow(book: Book<string>, fees: seq<Row<string>>, row: Row<string>)
    requires RefundAll(book, fees).Ok? && row in book.rows
    ensures row in RefundAll(book, fees).value.rows
    decreases |fees|
  {
    if fees != [] {
      RowsOnlyGrow(book, fees[..|fees| - 1], row);
      var b, after := RefundAll(book, fees[..|fees| - 1]).value, RefundAll(book, fees).value;
      var i :| 0 <= i < |b.rows| && b.rows[i] == row;
      assert after.rows[i] == row;
    }
  }

  lemma {:induction false} RefundOneMore(book: Book<string>, fees: seq<Row<string>>, fee: Row<string>)
    ensures RefundAll(book, fees + [fee]) == RefundNext(RefundAll(book, fees), fee)
  {
    assert (fees + [fee])[..|fees|] == fees;
  }

  /** The loop depends on what it has done so far only through the book. */
  lemma {:induction false} SameFromThere(book: Book<string>, one: seq<Row<string>>, two: seq<Row<string>>,
      rest: seq<Row<string>>)
    requires RefundAll(book, one) == RefundAll(book, two)
    ensures RefundAll(book, one + rest) == RefundAll(book, two + rest)
    decreases |rest|
  {
    if rest == [] {
      assert one + rest == one && two + rest == two;
    } else {
      var init, last := rest[..|rest| - 1], rest[|rest| - 1];
      SameFromThere(book, one, two, init);
      RefundOneMore(book, one + init, last);
      RefundOneMore(book, two + init, last);
      assert one + rest == one + init + [last] && two + rest == two + init + [last];
    }
  }

  /**
   * A fee under any other reference is never refunded: wherever it stands, the cancellation is what it is without it.
   */
  lemma {:induction false} ForeignFeesAreForgotten(book: Book<string>, fees: seq<Row<string>>, i: nat)
    requires i < |fees| && fees[i] in book.rows && fees[i].reference.Some? && !HasFeePrefix(fees[i].reference.value)
    ensures RefundAll(book, fees) == RefundAll(book, fees[..i] + fees[i + 1..])
  {
    var before, upTo := fees[..i], fees[..i + 1];
    assert upTo[..i] == before && upTo[i] == fees[i];
    if RefundAll(book, before).Ok? {
      RowsOnlyGrow(book, before, fees[i]);
      ForeignReferenceIsNeverDue(RefundAll(book, before).value, fees[i]);
    }
    SameFromThere(book, upTo, before, fees[i + 1..]);
    assert upTo + fees[i + 1..] == fees;
  }

  // ---- what it comes to per player -----------------------------------------------------------

  /** The player's rows under any of these references. */
  function NetOver(rows: seq<Row<string>>, user: UserId, references: set<string>): int {
    if rows == [] then 0
    else
      var last := rows[|rows| - 1];
      NetOver(rows[..|rows| - 1], user, references)
      + (if last.user == user && last.reference.Some? && last.reference.value in references then last.amount else 0)
  }

  /** The references of the first `n` prefixed fees and of their refunds. */
  function PairedReferences(fees: seq<Row<string>>, n: nat): set<string>
    requires n <= |fees|
  {
    if n == 0 then {}
    else
      var rest := PairedReferences(fees, n - 1);
      if fees[n - 1].reference.Some? && HasFeePrefix(fees[n - 1].reference.value)
      then rest + {fees[n - 1].reference.value} + {RefundReference(fees[n - 1].reference.value)} else rest
  }

  lemma {:induction false} OneMoreReference(rows: seq<Row<string>>, user: UserId, references: set<string>,
      reference: string)
    requires reference !in references
    ensures NetOver(rows, user, references + {reference})
      == NetOver(rows, user, references) + NetOver(rows, user, {reference})
    decreases |rows|
  {
    if rows != [] { OneMoreReference(rows[..|rows| - 1], user, references, reference); }
  }

  lemma {:induction false} NetUnderOne(rows: seq<Row<string>>, user: UserId, reference: string, k: nat)
    requires UniqueReferences(rows) && k < |rows| && rows[k].reference == Some(reference)
    ensures NetOver(rows, user, {reference}) == if rows[k].user == user then rows[k].amount else 0
    decreases |rows|
  {
    var n := |rows| - 1;
    if k < n {
      assert rows[..n][k] == rows[k];
      NetUnderOne(rows[..n], user, reference, k);
      assert rows[k].reference != rows[n].reference;
    } else {
      forall i | 0 <= i < n ensures rows[..n][i].reference != Some(reference) {
        assert rows[i].reference != rows[n].reference;
      }
      NetUnderNone(rows[..n], user, reference);
    }
  }

  lemma {:induction false} NetUnderNone(rows: seq<Row<string>>, user: UserId, reference: string)
    requires forall i :: 0 <= i < |rows| ==> rows[i].reference != Some(reference)
    ensures NetOver(rows, user, {reference}) == 0
    decreases |rows|
  {
    if rows != [] { NetUnderNone(rows[..|rows| - 1], user, reference); }
  }

  lemma {:induction false} LaterPairIsNew(book: Book<string>, fees: seq<Row<string>>, n: nat, i: nat)
    requires n <= i < |fees| && Debited(book, fees) && fees[i].reference.Some? && HasFeePrefix(fees[i].reference.value)
    ensures fees[i].reference.value !in PairedReferences(fees, n)
    ensures RefundReference(fees[i].reference.value) !in PairedReferences(fees, n)
  {
    if n > 0 {
      LaterPairIsNew(book, fees, n - 1, i);
      var earlier, later := fees[n - 1].reference, fees[i].reference;
      if earlier.Some? && HasFeePrefix(earlier.value) {
        assert earlier != later;
        RefundIsNoFee(earlier.value, later.value);
        RefundIsNoFee(later.value, earlier.value);
        if RefundReference(earlier.value) == RefundReference(later.value) {
          RefundReferencesDiffer(earlier.value, later.value);
        }
      }
    }
  }

  /** One fee and its refund cancel out, whoever the player is. */
  lemma {:induction false} OnePairNetsToZero(after: Book<string>, fee: Row<string>, user: UserId,
      references: set<string>)
    requires fee.reference.Some? && HasFeePrefix(fee.reference.value) && UniqueReferences(after.rows)
    requires fee in after.rows && exists k: nat :: PaidBack(after.rows, fee, k)
    requires fee.reference.value !in references && RefundReference(fee.reference.value) !in references
    ensures NetOver(after.rows, user, references + {fee.reference.value} + {RefundReference(fee.reference.value)})
         == NetOver(after.rows, user, references)
  {
    var reference, refund := fee.reference.value, RefundReference(fee.reference.value);
    RefundIsNoFee(reference, reference);
    OneMoreReference(after.rows, user, references, reference);
    OneMoreReference(after.rows, user, references + {reference}, refund);
    var j :| 0 <= j < |after.rows| && after.rows[j] == fee;
    var k: nat :| PaidBack(after.rows, fee, k);
    NetUnderOne(after.rows, user, reference, j);
    NetUnderOne(after.rows, user, refund, k);
  }

  lemma {:induction false} PairsNetToZero(book: Book<string>, after: Book<string>, fees: seq<Row<string>>, user: UserId,
      n: nat)
    requires n <= |fees| && Debited(book, fees) && Grown(book, after) && AllPaidBack(after.rows, fees, |fees|)
    ensures NetOver(after.rows, user, PairedReferences(fees, n)) == 0
  {
    if n == 0 {
      NetOverNothing(after.rows, user);
    } else {
      PairsNetToZero(book, after, fees, user, n - 1);
      var fee := fees[n - 1];
      if fee.reference.Some? && HasFeePrefix(fee.reference.value) {
        LaterPairIsNew(book, fees, n - 1, n - 1);
        InEarlierRows(book, after, fee);
        OnePairNetsToZero(after, fee, user, PairedReferences(fees, n - 1));
      }
    }
  }

  lemma {:induction false} NetOverNothing(rows: seq<Row<string>>, user: UserId)
    ensures NetOver(rows, user, {}) == 0
    decreases |rows|
  {
    if rows != [] { NetOverNothing(rows[..|rows| - 1], user); }
  }

  /**
   * After a cancellation a player's entry-fee rows and the refunds paired with them add up to nothing, all fees
   * together.
   */
  lemma {:induction false} EveryPlayerIsPaidBack(book: Book<string>, fees: seq<Row<string>>, user: UserId)
    requires Debited(book, fees) && UniqueReferences(book.rows) && EarlierRefundsFull(book.rows, fees) &&
      RefundAll(book, fees).Ok?
    ensures NetOver(RefundAll(book, fees).value.rows, user, PairedReferences(fees, |fees|)) == 0
  {
    LoopProgress(book, fees, |fees|);
    assert fees[..|fees|] == fees;
    PairsNetToZero(book, RefundAll(book, fees).value, fees, user, |fees|);
  }

  // ---- the fees that are really written -------------------------------------------------------

  /** `entryFeeReference`, with `:` and the number of the attempt from the second one on. */
  function EntryFeeReference(tournament: string, user: string, attempt: string): string {
    FEE_PREFIX + tournament + ":" + user + attempt
  }

  /** Every row carries a reference of this form; `name` is how user ids are spelled. */
  ghost predicate AsWritten(fees: seq<Row<string>>, tournament: string, name: UserId -> string) {
    forall i :: 0 <= i < |fees| ==> WrittenBy(fees[i], tournament, name(fees[i].user))
  }

  ghost predicate WrittenBy(fee: Row<string>, tournament: string, user: string) {
    exists attempt :: fee.reference == Some(EntryFeeReference(tournament, user, attempt))
  }

  lemma {:induction false} WrittenIsPrefixed(fee: Row<string>, tournament: string, user: string)
    requires WrittenBy(fee, tournament, user)
    ensures fee.reference.Some? && HasFeePrefix(fee.reference.value)
  {
    var attempt :| fee.reference == Some(EntryFeeReference(tournament, user, attempt));
    var tail := tournament + ":" + user + attempt;
    assert EntryFeeReference(tournament, user, attempt) == FEE_PREFIX + tail;
  }

  /** The fee has its refund row, and both references are among those that net to zero. */
  ghost predicate Refunded(rows: seq<Row<string>>, fees: seq<Row<string>>, fee: Row<string>) {
    && fee.reference.Some? && fee.reference.value in PairedReferences(fees, |fees|)
    && RefundReference(fee.reference.value) in PairedReferences(fees, |fees|)
    && exists k: nat :: PaidBack(rows, fee, k)
  }

  lemma {:induction false} Paired(fees: seq<Row<string>>, n: nat, i: nat)
    requires i < n <= |fees| && fees[i].reference.Some? && HasFeePrefix(fees[i].reference.value)
    ensures fees[i].reference.value in PairedReferences(fees, n) &&
      RefundReference(fees[i].reference.value) in PairedReferences(fees, n)
  {
    if i < n - 1 { Paired(fees, n - 1, i); }
  }

  lemma {:induction false} WrittenFeeIsRefunded(book: Book<string>, fees: seq<Row<string>>, tournament: string,
      user: string, i: nat)
    requires Debited(book, fees) && UniqueReferences(book.rows) && EarlierRefundsFull(book.rows, fees)
    requires i < |fees| && WrittenBy(fees[i], tournament, user) && RefundAll(book, fees).Ok?
    ensures Refunded(RefundAll(book, fees).value.rows, fees, fees[i])
  {
    WrittenIsPrefixed(fees[i], tournament, user);
    FeesNetToZero(book, fees, i);
    Paired(fees, |fees|, i);
  }

  /**
   * Every entry fee the platform writes is refunded when its tournament is cancelled: each
   * has a refund row for the full amount, and a player's fees and refunds add up to nothing.
   */
  lemma {:induction false} EveryWrittenFeeIsRefunded(book: Book<string>, fees: seq<Row<string>>, tournament: string,
      name: UserId -> string, user: UserId)
    requires Debited(book, fees) && UniqueReferences(book.rows) && EarlierRefundsFull(book.rows, fees)
    requires AsWritten(fees, tournament, name) && RefundAll(book, fees).Ok?
    ensures forall i :: 0 <= i < |fees| ==> Refunded(RefundAll(book, fees).value.rows, fees, fees[i])
    ensures NetOver(RefundAll(book, fees).value.rows, user, PairedReferences(fees, |fees|)) == 0
  {
    forall i | 0 <= i < |fees| ensures Refunded(RefundAll(book, fees).value.rows, fees, fees[i]) {
      WrittenFeeIsRefunded(book, fees, tournament, name(fees[i].user), i);
    }
    EveryPlayerIsPaidBack(book, fees, user);
  }

  /**
   * The cancellation goes through exactly when nobody owed a refund is overdrawn:
   * one overdrawn player keeps the whole tournament from being cancelled.
   */
  lemma {:induction false} CancelsExactlyWhenNobodyOverdrawn(book: Book<string>, fees: seq<Row<string>>, n: nat)
    requires n <= |fees| && Debited(book, fees) && UniqueReferences(book.rows) && EarlierRefundsFull(book.rows, fees)
    ensures RefundAll(book, fees[..n]).Ok? <==> NobodyOverdrawn(book, fees[..n])
  {
    if n > 0 {
      assert fees[..n][..n - 1] == fees[..n - 1];
      CancelsExactlyWhenNobodyOverdrawn(book, fees, n - 1);
      var fee := fees[n - 1];
      assert fees[..n][n - 1] == fee;
      assert NobodyOverdrawn(book, fees[..n])
        <==> NobodyOverdrawn(book, fees[..n - 1]) && (Due(book.rows, fee) ==> book.balances[fee.user] >= 0) by {
        OverdrawnSplits(book, fees, n);
      }
      if RefundAll(book, fees[..n - 1]).Ok? {
        LoopProgress(book, fees, n - 1);
        LastRefund(book, RefundAll(book, fees[..n - 1]).value, fees, n);
      }
    }
  }

  lemma {:induction false} OverdrawnSplits(book: Book<string>, fees: seq<Row<string>>, n: nat)
    requires 0 < n <= |fees| && Debited(book, fees)
    ensures NobodyOverdrawn(book, fees[..n]) <==>
      NobodyOverdrawn(book, fees[..n - 1]) && (Due(book.rows, fees[n - 1]) ==> book.balances[fees[n - 1].user] >= 0)
  {
    var short, full := fees[..n - 1], fees[..n];
    if NobodyOverdrawn(book, full) {
      forall i | 0 <= i < |short| && Due(book.rows, short[i])
        ensures short[i].user in book.balances && book.balances[short[i].user] >= 0
      {
        assert full[i] == short[i];
      }
      assert full[n - 1] == fees[n - 1];
    }
    if NobodyOverdrawn(book, short) && (Due(book.rows, fees[n - 1]) ==> book.balances[fees[n - 1].user] >= 0) {
      forall i | 0 <= i < |full| && Due(book.rows, full[i])
        ensures full[i].user in book.balances && book.balances[full[i].user] >= 0
      {
        assert i < n - 1 ==> full[i] == short[i];
      }
    }
  }

  /**
   * The last of `n` fees: it is refused exactly when its player was overdrawn before the loop and has had nothing
   * back.
   */
  lemma {:induction false} LastRefund(book: Book<string>, b: Book<string>, fees: seq<Row<string>>, n: nat)
    requires 0 < n <= |fees| && Debited(book, fees) && Progress(book, fees, n - 1, b)
    requires RefundAll(book, fees[..n - 1]) == Ok(b) && NobodyOverdrawn(book, fees[..n - 1])
    ensures RefundAll(book, fees[..n]).Ok? <==> (Due(book.rows, fees[n - 1]) ==> book.balances[fees[n - 1].user] >= 0)
  {
    var fee := fees[n - 1];
    assert fees[..n][..n - 1] == fees[..n - 1];
    InEarlierRows(book, b, fee);
    if fee.reference.Some? && !HasFeePrefix(fee.reference.value) {
      ForeignReferenceIsNeverDue(book, fee);
      ForeignReferenceIsNeverDue(b, fee);
    }
    BalanceOfDue(book, b, fees, n);
  }

  /** A player's wallet is overdrawn at the last fee exactly when it was before the loop. */
  lemma {:induction false} BalanceOfDue(book: Book<string>, b: Book<string>, fees: seq<Row<string>>, n: nat)
    requires 0 < n <= |fees| && Debited(book, fees) && RefundAll(book, fees[..n - 1]) == Ok(b) &&
      NobodyOverdrawn(book, fees[..n - 1])
    requires Grown(book, b)
    ensures book.balances[fees[n - 1].user] >= 0 <==> b.balances[fees[n - 1].user] >= 0
  {
    OverdrawnUntouched(book, fees, n - 1, fees[n - 1].user);
  }

  /** An overdrawn player whose fees are not due keeps the balance through the loop. */
  lemma {:induction false} OverdrawnUntouched(book: Book<string>, fees: seq<Row<string>>, n: nat, user: UserId)
    requires n <= |fees| && Debited(book, fees) && user in book.balances
    requires RefundAll(book, fees[..n]).Ok? && user in RefundAll(book, fees[..n]).value.balances
    ensures book.balances[user] < 0 ==> RefundAll(book, fees[..n]).value.balances[user] == book.balances[user]
  {
    if n > 0 {
      assert fees[..n][..n - 1] == fees[..n - 1];
      var b := RefundAll(book, fees[..n - 1]).value;
      SameUsers(book, fees, n - 1);
      OverdrawnUntouched(book, fees, n - 1, user);
    }
  }

  lemma {:induction false} SameUsers(book: Book<string>, fees: seq<Row<string>>, n: nat)
    requires n <= |fees| && RefundAll(book, fees[..n]).Ok? && Debited(book, fees)
    ensures RefundAll(book, fees[..n]).value.balances.Keys == book.balances.Keys
  {
    if n > 0 {
      assert fees[..n][..n - 1] == fees[..n - 1];
      SameUsers(book, fees, n - 1);
    }
  }

  // ---- what is written ------------------------------------------------------------------------

  /** `refund` pays back `fee`: the same player, the whole amount, and `refund:` where the fee says `entry_fee:`. */
  ghost predicate PaysBack(refund: Row<string>, fee: Row<string>) {
    exists tail :: PaysBackUnder(refund, fee, tail)
  }

  ghost predicate PaysBackUnder(refund: Row<string>, fee: Row<string>, tail: string) {
    && fee.reference == Some("entry_fee:" + tail) && refund.reference == Some("refund:" + tail)
    && refund.user == fee.user && refund.amount == -fee.amount
  }

  lemma {:induction false} RefundReferenceIs(tail: string)
    ensures HasFeePrefix("entry_fee:" + tail) && RefundReference("entry_fee:" + tail) == "refund:" + tail
  {
    assert |FEE_PREFIX| == 10;
    assert ("entry_fee:" + tail)[..10] == "entry_fee:" && ("entry_fee:" + tail)[10..] == tail;
  }

  lemma {:induction false} RefundPaysBack(fee: Row<string>, refund: Row<string>)
    requires fee.reference.Some? && HasFeePrefix(fee.reference.value)
    requires refund.reference == Some(RefundReference(fee.reference.value))
    requires refund.user == fee.user && refund.amount == -fee.amount
    ensures PaysBack(refund, fee)
  {
    var reference := fee.reference.value;
    var tail := reference[|FEE_PREFIX|..];
    assert reference == "entry_fee:" + tail;
    assert PaysBackUnder(refund, fee, tail);
  }

  /** Whatever a cancellation writes pays one of the fees back, as a refund. */
  lemma {:induction false} OnlyRefundsAreWritten(book: Book<string>, fees: seq<Row<string>>, n: nat, k: nat)
    requires n <= |fees| && (forall i :: 0 <= i < |fees| ==> fees[i] in book.rows) && RefundAll(book, fees[..n]).Ok?
    requires |book.rows| <= k < |RefundAll(book, fees[..n]).value.rows|
    ensures RefundAll(book, fees[..n]).value.rows[k].kind == Refund
    ensures exists i :: 0 <= i < n && PaysBack(RefundAll(book, fees[..n]).value.rows[k], fees[i])
  {
    if n > 0 {
      assert fees[..n][..n - 1] == fees[..n - 1];
      var b, after := RefundAll(book, fees[..n - 1]).value, RefundAll(book, fees[..n]).value;
      var fee := fees[n - 1];
      RowsOnlyGrow(book, fees[..n - 1], fee);
      if fee.reference.Some? && !HasFeePrefix(fee.reference.value) { ForeignReferenceIsNeverDue(b, fee); }
      if k < |b.rows| {
        OnlyRefundsAreWritten(book, fees, n - 1, k);
        assert after.rows[k] == b.rows[k];
      } else {
        RefundPaysBack(fee, after.rows[k]);
      }
    }
  }

  /**
   * After a cancellation exactly one row stands under `refund:` for every `entry_fee:` fee, and it pays the fee back.
   */
  lemma {:induction false} EachFeeIsPaidBackOnce(book: Book<string>, fees: seq<Row<string>>, i: nat, tail: string)
    requires Debited(book, fees) && UniqueReferences(book.rows) && EarlierRefundsFull(book.rows, fees)
    requires i < |fees| && fees[i].reference == Some("entry_fee:" + tail) && RefundAll(book, fees).Ok?
    ensures var rows := RefundAll(book, fees).value.rows;
      exists k :: 0 <= k < |rows| && PaysBack(rows[k], fees[i]) &&
        forall j :: 0 <= j < |rows| ==> (rows[j].reference == Some("refund:" + tail) <==> j == k)
  {
    RefundReferenceIs(tail);
    FeesNetToZero(book, fees, i);
    var rows := RefundAll(book, fees).value.rows;
    var k: nat :| PaidBack(rows, fees[i], k);
    assert PaysBackUnder(rows[k], fees[i], tail);
    forall j | 0 <= j < |rows| ensures rows[j].reference == Some("refund:" + tail) <==> j == k {}
  }

  // ---- the code -----------------------------------------------------------------------------

  /** The loop over the fee rows, on the ledger tables, rolled back as a whole when a refund is refused. */
  method RefundEntryFees(table: LedgerTable<string>, fees: seq<Row<string>>) returns (refusal: Option<Refusal>)
    modifies table
    ensures var outcome := RefundAll(old(table.Value()), fees);
      refusal == WhyRefused(outcome) && table.Value() == Committed(old(table.Value()), outcome)
  {
    var savedBalances, savedRows := table.balances, table.rows;
    ghost var start := table.Value();
    for i := 0 to |fees|
      invariant RefundAll(start, fees[..i]) == Ok(table.Value())
    {
      assert fees[..i + 1][..i] == fees[..i];
      var fee := fees[i];
      if fee.reference.Some? {
        var reference := RefundReference(fee.reference.value);
        var already := table.ReferenceTaken(reference);
        if !already {
          refusal := table.RecordEntry(RefundEntry(fee, reference));
          if refusal.Some? {
            table.balances, table.rows := savedBalances, savedRows;
            RefusedStaysRefused(start, fees, i + 1);
            return;
          }
        }
      }
    }
    assert fees[..|fees|] == fees;
    refusal := None;
  }

  lemma {:induction false} RefusedStaysRefused(book: Book<string>, fees: seq<Row<string>>, n: nat)
    requires n <= |fees| && RefundAll(book, fees[..n]).Err?
    ensures RefundAll(book, fees) == RefundAll(book, fees[..n])
    decreases |fees| - n
  {
    if n < |fees| {
      assert fees[..n + 1][..n] == fees[..n];
      RefusedStaysRefused(book, fees, n + 1);
    } else {
      assert fees[..n] == fees;
    }
  }
}
