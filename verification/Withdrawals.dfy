/** The wallets behind payouts. */
module Withdrawals {
  // The money of a withdrawal leaves the wallet when it is asked for, and comes back when
  // its payout is cancelled or its transfer fails. The payout runs through `Payouts`.
  import opened Common
  import L = Ledger
  import P = Payouts

  datatype Ref = ReservationRef(user: UserId, request: nat) | ReleaseRef(payout: P.PayoutId) | OtherRef(id: nat)

  datatype Review = PendingReview | Approved | Declined | CancelledByPlayer

  /** The status of the reservation row: PENDING, COMPLETED or REVERSED. */
  datatype Money = Reserved | Completed | Reversed

  /** `reservation` and `release` are positions of ledger rows. */
  datatype Request = Request(
    payout: P.PayoutId,
    user: UserId,
    request: nat,
    amount: nat,
    review: Review,
    money: Money,
    reservation: nat,
    release: Option<nat>)

  datatype Db = Db(tables: P.Tables, requests: seq<Request>, book: L.Book<Ref>)

  datatype Failure = Ineligible | NotRecorded(why: L.Refusal)

  // ---- the transactions -------------------------------------------------------------------

  predicate HasRequest(requests: seq<Request>, user: UserId, request: nat) {
    exists i :: 0 <= i < |requests| && requests[i].user == user && requests[i].request == request
  }

  function ReservationEntry(user: UserId, request: nat, amount: nat): L.Entry<Ref> {
    L.Entry(user, L.Other, 0 - amount, Some(ReservationRef(user, request)), false)
  }

  function ReleaseEntry(r: Request): L.Entry<Ref> {
    L.Entry(r.user, L.Refund, r.amount, Some(ReleaseRef(r.payout)), false)
  }

  function NewRow(amount: nat, verified: bool): P.Row {
    P.Row(P.PendingReview, amount, true, verified, true, None, None, false)
  }

  /** `create`: reserve the money and open a payout; a repeated request changes nothing. */
  function Ask(d: Db, id: P.PayoutId, user: UserId, request: nat, amount: nat, eligible: bool,
      verified: bool): Result<Db, Failure>
    requires id !in d.tables.payouts
  {
    if HasRequest(d.requests, user, request) then Ok(d)
    else if !eligible then Err(Ineligible)
    else
      match L.Record(d.book, ReservationEntry(user, request, amount))
      case Err(why) => Err(NotRecorded(why))
      case Ok(book) =>
        Ok(Db(d.tables.(payouts := d.tables.payouts[id := NewRow(amount, verified)]),
              d.requests + [Request(id, user, request, amount, PendingReview, Reserved, |d.book.rows|, None)],
              book))
  }

  /** The request behind a payout. */
  function Find(requests: seq<Request>, id: P.PayoutId): (found: Option<nat>)
    ensures found.Some? ==> found.value < |requests| && requests[found.value].payout == id
    ensures found.None? ==> forall i :: 0 <= i < |requests| ==> requests[i].payout != id
  {
    if requests == [] then None
    else if requests[|requests| - 1].payout == id then Some(|requests| - 1)
    else Find(requests[..|requests| - 1], id)
  }

  /** The reserved money goes back into the wallet. */
  function GiveBack(d: Db, i: nat, review: Review): Result<Db, Failure>
    requires i < |d.requests|
  {
    match L.Record(d.book, ReleaseEntry(d.requests[i]))
    case Err(why) => Err(NotRecorded(why))
    case Ok(book) =>
      var given := d.requests[i].(review := review, money := Reversed, release := Some(|d.book.rows|));
      Ok(d.(requests := d.requests[i := given], book := book))
  }

  /** The half that `cancel` and `markFailed` share: give the money back unless it was already. */
  function GiveBackOnce(d: Db, id: P.PayoutId, declined: bool): Result<Db, Failure> {
    match Find(d.requests, id)
    case None => Ok(d)
    case Some(i) =>
      if d.requests[i].release.Some? then Ok(d)
      else GiveBack(d, i, if declined then Declined else d.requests[i].review)
  }

  function Approve(d: Db, id: P.PayoutId): Db {
    if id in d.tables.payouts && P.ApproveRow(d.tables.payouts[id]).Some?
      then d.(tables := P.Change(d.tables, id, P.ApproveRow), requests := Reviewed(d.requests, id)) else d
  }

  function Reviewed(requests: seq<Request>, id: P.PayoutId): seq<Request> {
    match Find(requests, id)
    case None => requests
    case Some(i) =>
      if requests[i].review == PendingReview then requests[i := requests[i].(review := Approved)] else requests
  }

  function Cancel(d: Db, id: P.PayoutId): Result<Db, Failure> {
    if id in d.tables.payouts && P.CancelRow(d.tables.payouts[id]).Some?
      then GiveBackOnce(d.(tables := P.Change(d.tables, id, P.CancelRow)), id, true) else Ok(d)
  }

  function Fail(d: Db, id: P.PayoutId): Result<Db, Failure> {
    if id in d.tables.payouts && P.FailRow(d.tables.payouts[id]).Some?
      then GiveBackOnce(d.(tables := P.FailPayout(d.tables, id)), id, false) else Ok(d)
  }

  /** `markPaid`: a transfer recorded for the first time completes the reservation. */
  function RecordPaid(d: Db, id: P.PayoutId, transfer: nat): Option<Db> {
    match P.MarkPaid(d.tables, id, transfer)
    case None => None
    case Some(t) =>
      Some(d.(tables := t, requests := if t == d.tables then d.requests else Settled(d.requests, id)))
  }

  function Settled(requests: seq<Request>, id: P.PayoutId): seq<Request> {
    match Find(requests, id)
    case None => requests
    case Some(i) => requests[i := requests[i].(money := Completed)]
  }

  /** `cancelOwned`: the player takes back a request under review; its payout is cancelled whatever its status. */
  function TakeBack(d: Db, user: UserId, i: nat): Result<Db, Failure> {
    if i >= |d.requests| || d.requests[i].user != user || d.requests[i].review != PendingReview ||
       d.requests[i].release.Some? || d.requests[i].payout !in d.tables.payouts then Ok(d)
    else
      var id := d.requests[i].payout;
      var row := d.tables.payouts[id].(status := P.Cancelled);
      GiveBack(d.(tables := d.tables.(payouts := d.tables.payouts[id := row])), i, CancelledByPlayer)
  }

  // ---- the protocol -------------------------------------------------------------------------

  /** The database with Stripe's transfers and the workers between it and Stripe. */
  datatype Office = Office(db: Db, transfers: seq<P.Transfer>, workers: map<nat, P.Phase>, now: int)

  function World(o: Office): P.World {
    P.World(o.db.tables, o.transfers, o.workers, o.now)
  }

  datatype Step =
    | Asking(id: P.PayoutId, user: UserId, request: nat, amount: nat, eligible: bool, verified: bool)
    | TakingBack(user: UserId, i: nat)
    | Paying(step: P.Step)
    | Moving(entry: L.Entry<Ref>)

  function Pay(o: Office, s: P.Step): Office {
    match s
    case ApproveStep(id) => o.(db := Approve(o.db, id))
    case CancelStep(id) => o.(db := Committed(o.db, Cancel(o.db, id)))
    case TransferFailed(id, i) =>
      if P.Recorded(o.db.tables, id, i) then o.(db := Committed(o.db, Fail(o.db, id))) else o
    case Record(k) =>
      if k in o.workers && o.workers[k].Got? then
        var left := o.(workers := o.workers - {k});
        match RecordPaid(o.db, o.workers[k].id, o.workers[k].transfer)
        case Some(d) => left.(db := d)
        case None => left
      else o
    case _ =>
      var w := P.Next(World(o), s);
      Office(o.db.(tables := w.tables), w.transfers, w.workers, w.now)
  }

  /** One step; a refused transaction changes nothing. Other money moves under other references. */
  function Act(o: Office, s: Step): Office {
    match s
    case Asking(id, user, request, amount, eligible, verified) =>
      if id in o.db.tables.payouts then o
      else o.(db := Committed(o.db, Ask(o.db, id, user, request, amount, eligible, verified)))
    case TakingBack(user, i) => o.(db := Committed(o.db, TakeBack(o.db, user, i)))
    case Paying(step) => Pay(o, step)
    case Moving(entry) =>
      if entry.reference.Some? && !entry.reference.value.OtherRef? then o
      else o.(db := o.db.(book := Committed(o.db.book, L.Record(o.db.book, entry))))
  }

  function Run(o: Office, steps: seq<Step>): Office {
    if steps == [] then o else Act(Run(o, steps[..|steps| - 1]), steps[|steps| - 1])
  }

  // ---- what always holds ----------------------------------------------------------------------

  /** The payout has been cancelled, or a transfer of it was recorded and reported as failed. */
  predicate Undone(row: P.Row) {
    row.status == P.Cancelled || (row.transferId.Some? && row.status != P.Paid)
  }

  predicate RowIs(rows: seq<L.Row<Ref>>, k: nat, user: UserId, amount: int, reference: Ref) {
    k < |rows| && rows[k].user == user && rows[k].amount == amount && rows[k].reference == Some(reference)
  }

  ghost predicate Booked(book: L.Book<Ref>, r: Request) {
    && r.user in book.balances
    && RowIs(book.rows, r.reservation, r.user, 0 - r.amount, ReservationRef(r.user, r.request))
    && (r.release.Some? ==> RowIs(book.rows, r.release.value, r.user, r.amount, ReleaseRef(r.payout)))
  }

  /** A request agrees with its payout: money back exactly when undone, gone exactly when paid, else reserved. */
  ghost predicate Agrees(row: P.Row, r: Request) {
    && row.withdrawal && row.amount == r.amount
    && (r.release.Some? <==> Undone(row))
    && r.money == (if r.release.Some? then Reversed else if row.status == P.Paid then Completed else Reserved)
    && (r.review == PendingReview <==> row.status == P.PendingReview)
    && (row.status == P.PendingReview ==> row.transferId == None)
  }

  ghost predicate RequestOk(d: Db, i: nat)
    requires i < |d.requests|
  {
    d.requests[i].payout in d.tables.payouts && Agrees(d.tables.payouts[d.requests[i].payout], d.requests[i]) &&
      Booked(d.book, d.requests[i])
  }

  predicate OurRow(r: L.Row<Ref>) {
    r.reference.Some? && !r.reference.value.OtherRef?
  }

  predicate PointsAt(r: Request, row: L.Row<Ref>, k: nat)
    requires OurRow(row)
  {
    if row.reference.value.ReservationRef? then r.reservation == k else r.release == Some(k)
  }

  ghost predicate Explained(requests: seq<Request>, row: L.Row<Ref>, k: nat) {
    OurRow(row) ==> exists i :: 0 <= i < |requests| && PointsAt(requests[i], row, k)
  }

  ghost predicate Distinct(requests: seq<Request>) {
    forall i, j :: 0 <= i < j < |requests| ==>
      && requests[i].payout != requests[j].payout
      && !(requests[i].user == requests[j].user && requests[i].request == requests[j].request)
  }

  ghost predicate DbOk(d: Db) {
    && Distinct(d.requests) && L.UniqueReferences(d.book.rows)
    && (forall i: nat {:trigger RequestOk(d, i)} :: i < |d.requests| ==> RequestOk(d, i))
    && (forall k: nat {:trigger Explained(d.requests, d.book.rows[k], k)} :: k < |d.book.rows| ==>
          Explained(d.requests, d.book.rows[k], k))
    && (forall id :: id in d.tables.payouts && d.tables.payouts[id].withdrawal ==> Find(d.requests, id).Some?)
  }

  ghost predicate Good(o: Office) {
    P.Good(World(o)) && DbOk(o.db)
  }

  /** What a player has in withdrawals that were not given back. */
  function Held(requests: seq<Request>, user: UserId): nat {
    if requests == [] then 0
    else
      var last := requests[|requests| - 1];
      Held(requests[..|requests| - 1], user) + (if last.user == user && last.release.None? then last.amount else 0)
  }

  /** The wallet and the withdrawals that were not given back. */
  function Worth(d: Db, user: UserId): int
    requires user in d.book.balances
  {
    d.book.balances[user] + Held(d.requests, user)
  }

  // ---- elementary facts -------------------------------------------------------------------------

  lemma {:induction false} FindIs(requests: seq<Request>, i: nat)
    requires Distinct(requests) && i < |requests|
    ensures Find(requests, requests[i].payout) == Some(i)
  {
    var found := Find(requests, requests[i].payout);
    assert found.Some? && requests[found.value].payout == requests[i].payout;
  }

  lemma {:induction false} HeldAppend(requests: seq<Request>, r: Request, user: UserId)
    ensures Held(requests + [r], user)
      == Held(requests, user) + (if r.user == user && r.release.None? then r.amount else 0)
  {
    assert (requests + [r])[..|requests|] == requests;
  }

  lemma {:induction false} HeldUpdate(requests: seq<Request>, i: nat, r: Request, user: UserId)
    requires i < |requests|
    ensures Held(requests[i := r], user) == Held(requests, user)
      - (if requests[i].user == user && requests[i].release.None? then requests[i].amount else 0)
      + (if r.user == user && r.release.None? then r.amount else 0)
    decreases |requests|
  {
    var next := requests[i := r];
    if i < |requests| - 1 {
      assert next[..|next| - 1] == requests[..|requests| - 1][i := r];
      HeldUpdate(requests[..|requests| - 1], i, r, user);
    } else {
      assert next[..|next| - 1] == requests[..|requests| - 1];
    }
  }

  /** Money that was not given back leaves its reference free. */
  lemma {:induction false} FreshRelease(d: Db, i: nat)
    requires DbOk(d) && i < |d.requests| && d.requests[i].release.None?
    ensures !L.HasReference(d.book.rows, ReleaseRef(d.requests[i].payout))
  {
    forall k: nat | k < |d.book.rows| ensures d.book.rows[k].reference != Some(ReleaseRef(d.requests[i].payout)) {
      assert Explained(d.requests, d.book.rows[k], k);
      if OurRow(d.book.rows[k]) && d.book.rows[k].reference.value.ReleaseRef? {
        var j :| 0 <= j < |d.requests| && d.requests[j].release == Some(k);
        assert RequestOk(d, j);
        FindIs(d.requests, i);
        FindIs(d.requests, j);
      }
    }
  }

  lemma {:induction false} FreshReservation(d: Db, user: UserId, request: nat)
    requires DbOk(d) && !HasRequest(d.requests, user, request)
    ensures !L.HasReference(d.book.rows, ReservationRef(user, request))
  {
    forall k: nat | k < |d.book.rows| ensures d.book.rows[k].reference != Some(ReservationRef(user, request)) {
      assert Explained(d.requests, d.book.rows[k], k);
      if OurRow(d.book.rows[k]) && d.book.rows[k].reference.value.ReservationRef? {
        var j :| 0 <= j < |d.requests| && d.requests[j].reservation == k;
        assert RequestOk(d, j);
      }
    }
  }

  /** A withdrawal is given back, if its turn comes, exactly when the wallet is not overdrawn. */
  lemma {:induction false} GiveBackExactlyWhen(d: Db, i: nat, review: Review, tables: P.Tables)
    requires DbOk(d) && i < |d.requests| && d.requests[i].release.None?
    ensures d.requests[i].user in d.book.balances
    ensures GiveBack(d.(tables := tables), i, review).Ok? <==> d.book.balances[d.requests[i].user] >= 0
  {
    assert RequestOk(d, i);
    FreshRelease(d, i);
  }

  // ---- every transaction keeps it -----------------------------------------------------------------

  predicate SameClaim(r: Request, q: Request) {
    q.payout == r.payout && q.user == r.user && q.request == r.request && q.amount == r.amount &&
      q.reservation == r.reservation && (r.release.Some? ==> q.release == r.release)
  }

  /** The same book, or one more row under a new reference. */
  ghost predicate Extends(a: L.Book<Ref>, b: L.Book<Ref>) {
    && b.balances.Keys == a.balances.Keys && |a.rows| <= |b.rows| <= |a.rows| + 1 && b.rows[..|a.rows|] == a.rows
    && (|b.rows| == |a.rows| + 1 && b.rows[|a.rows|].reference.Some? ==>
          !L.HasReference(a.rows, b.rows[|a.rows|].reference.value))
  }

  lemma {:induction false} RecordExtends(book: L.Book<Ref>, entry: L.Entry<Ref>)
    requires L.Record(book, entry).Ok?
    ensures var next := L.Record(book, entry).value;
      && Extends(book, next) && |next.rows| == |book.rows| + 1 && entry.user in book.balances
      && next.balances == book.balances[entry.user := book.balances[entry.user] + entry.amount]
      && next.rows[|book.rows|].reference == entry.reference
      && (entry.reference.Some? ==>
            RowIs(next.rows, |book.rows|, entry.user, entry.amount, entry.reference.value))
  {
  }

  ghost predicate TouchedOnly(a: P.Tables, b: P.Tables, id: P.PayoutId) {
    && id in a.payouts && b.payouts.Keys == a.payouts.Keys
    && (forall x :: x in a.payouts ==>
          b.payouts[x].withdrawal == a.payouts[x].withdrawal && (x != id ==> b.payouts[x] == a.payouts[x]))
  }

  /** Only one payout and its request have changed, and agree again. */
  lemma {:induction false} OneTouched(d: Db, e: Db, id: P.PayoutId)
    requires DbOk(d) && TouchedOnly(d.tables, e.tables, id) && Extends(d.book, e.book)
    requires |e.requests| == |d.requests|
    requires forall i :: 0 <= i < |d.requests| ==>
      SameClaim(d.requests[i], e.requests[i]) && (d.requests[i].payout != id ==> e.requests[i] == d.requests[i])
    requires forall i :: 0 <= i < |d.requests| && d.requests[i].payout == id ==> RequestOk(e, i)
    requires |e.book.rows| > |d.book.rows| ==> Explained(e.requests, e.book.rows[|d.book.rows|], |d.book.rows|)
    ensures DbOk(e)
  {
    forall i: nat | i < |e.requests| ensures RequestOk(e, i) {
      if d.requests[i].payout != id {
        assert RequestOk(d, i);
        BookedStill(d.book, e.book, d.requests[i]);
      }
    }
    ExplainedStill(d, e);
    UniqueStill(d.book, e.book);
    forall x | x in e.tables.payouts && e.tables.payouts[x].withdrawal ensures Find(e.requests, x).Some? {
      var i := Find(d.requests, x).value;
      assert e.requests[i].payout == x;
    }
  }

  lemma {:induction false} BookedStill(a: L.Book<Ref>, b: L.Book<Ref>, r: Request)
    requires Booked(a, r) && Extends(a, b)
    ensures Booked(b, r)
  {
    assert forall k :: 0 <= k < |a.rows| ==> b.rows[k] == b.rows[..|a.rows|][k];
  }

  lemma {:induction false} ExplainedStill(d: Db, e: Db)
    requires DbOk(d) && Extends(d.book, e.book) && |e.requests| >= |d.requests|
    requires forall i :: 0 <= i < |d.requests| ==> SameClaim(d.requests[i], e.requests[i])
    requires |e.book.rows| > |d.book.rows| ==> Explained(e.requests, e.book.rows[|d.book.rows|], |d.book.rows|)
    ensures forall k: nat {:trigger Explained(e.requests, e.book.rows[k], k)} :: k < |e.book.rows| ==>
      Explained(e.requests, e.book.rows[k], k)
  {
    forall k: nat | k < |e.book.rows| ensures Explained(e.requests, e.book.rows[k], k) {
      if k < |d.book.rows| {
        assert e.book.rows[k] == e.book.rows[..|d.book.rows|][k];
        assert Explained(d.requests, d.book.rows[k], k);
        if OurRow(d.book.rows[k]) {
          var i :| 0 <= i < |d.requests| && PointsAt(d.requests[i], d.book.rows[k], k);
          assert PointsAt(e.requests[i], e.book.rows[k], k);
        }
      }
    }
  }

  lemma {:induction false} UniqueStill(a: L.Book<Ref>, b: L.Book<Ref>)
    requires L.UniqueReferences(a.rows) && Extends(a, b)
    ensures L.UniqueReferences(b.rows)
  {
    if |b.rows| > |a.rows| {
      L.NewReferenceIsUnique(a.rows, b.rows[|a.rows|]);
      assert b.rows == a.rows + [b.rows[|a.rows|]];
    }
  }

  // ---- the four transactions on a payout ------------------------------------------------------------

  /** Money given back for a payout that has just become undone. */
  lemma {:induction false} GiveBackKeeps(d: Db, tables: P.Tables, i: nat, review: Review)
    requires DbOk(d) && i < |d.requests| && d.requests[i].release.None?
    requires TouchedOnly(d.tables, tables, d.requests[i].payout)
    requires var row := tables.payouts[d.requests[i].payout];
      Undone(row) && row.amount == d.requests[i].amount && row.withdrawal && row.status != P.PendingReview
    requires review != PendingReview
    requires GiveBack(d.(tables := tables), i, review).Ok?
    ensures DbOk(GiveBack(d.(tables := tables), i, review).value)
    ensures Worths(d, GiveBack(d.(tables := tables), i, review).value)
  {
    var e := GiveBack(d.(tables := tables), i, review).value;
    var r := d.requests[i];
    assert RequestOk(d, i);
    RecordExtends(d.book, ReleaseEntry(r));
    BookedStill(d.book, e.book, r);
    assert PointsAt(e.requests[i], e.book.rows[|d.book.rows|], |d.book.rows|);
    forall j | 0 <= j < |d.requests| && d.requests[j].payout == r.payout ensures RequestOk(e, j) {
      FindIs(d.requests, i);
      FindIs(d.requests, j);
    }
    OneTouched(d, e, r.payout);
    forall u | u in d.book.balances ensures Worth(e, u) == Worth(d, u) {
      HeldUpdate(d.requests, i, e.requests[i], u);
    }
  }

  /** No wallet gains or loses, counting what is on its way out. */
  ghost predicate Worths(d: Db, e: Db) {
    e.book.balances.Keys == d.book.balances.Keys &&
      forall u {:trigger Worth(e, u)} :: u in d.book.balances ==> Worth(e, u) == Worth(d, u)
  }

  /** A payout changes and its request, if it has one, is brought into agreement without money moving. */
  lemma {:induction false} NoMoneyMoves(d: Db, e: Db, id: P.PayoutId)
    requires DbOk(d) && TouchedOnly(d.tables, e.tables, id) && e.book == d.book && |e.requests| == |d.requests|
    requires forall i :: 0 <= i < |d.requests| ==>
      && SameClaim(d.requests[i], e.requests[i]) && e.requests[i].release == d.requests[i].release
      && (d.requests[i].payout != id ==> e.requests[i] == d.requests[i])
      && (d.requests[i].payout == id ==> Agrees(e.tables.payouts[id], e.requests[i]))
    ensures DbOk(e) && Worths(d, e)
  {
    forall i | 0 <= i < |d.requests| && d.requests[i].payout == id ensures RequestOk(e, i) { assert RequestOk(d, i); }
    OneTouched(d, e, id);
    forall u | u in d.book.balances ensures Worth(e, u) == Worth(d, u) { SameHeld(d.requests, e.requests, u); }
  }

  lemma {:induction false} SameHeld(a: seq<Request>, b: seq<Request>, user: UserId)
    requires |a| == |b|
    requires forall i :: 0 <= i < |a| ==>
      b[i].user == a[i].user && b[i].amount == a[i].amount && (b[i].release.Some? <==> a[i].release.Some?)
    ensures Held(a, user) == Held(b, user)
  {
    if a == [] {
    } else {
      SameHeld(a[..|a| - 1], b[..|b| - 1], user);
    }
  }

  lemma {:induction false} ApproveKeeps(d: Db, id: P.PayoutId)
    requires DbOk(d)
    ensures DbOk(Approve(d, id)) && Worths(d, Approve(d, id))
  {
    if id in d.tables.payouts && P.ApproveRow(d.tables.payouts[id]).Some? {
      ReviewedIs(d, id);
      NoMoneyMoves(d, Approve(d, id), id);
    }
  }

  lemma {:induction false} ReviewedIs(d: Db, id: P.PayoutId)
    requires DbOk(d) && id in d.tables.payouts && P.ApproveRow(d.tables.payouts[id]).Some?
    ensures var e := Reviewed(d.requests, id);
      |e| == |d.requests| && forall i :: 0 <= i < |e| ==>
        && SameClaim(d.requests[i], e[i]) && e[i].release == d.requests[i].release
        && (d.requests[i].payout != id ==> e[i] == d.requests[i])
        && (d.requests[i].payout == id ==> Agrees(P.ApproveRow(d.tables.payouts[id]).value, e[i]))
  {
    var e := Reviewed(d.requests, id);
    forall i | 0 <= i < |e| && d.requests[i].payout == id
      ensures Agrees(P.ApproveRow(d.tables.payouts[id]).value, e[i])
    {
      assert RequestOk(d, i);
      FindIs(d.requests, i);
    }
  }

  lemma {:induction false} CancelKeeps(d: Db, id: P.PayoutId)
    requires DbOk(d) && Cancel(d, id).Ok?
    ensures DbOk(Cancel(d, id).value) && Worths(d, Cancel(d, id).value)
  {
    if id in d.tables.payouts && P.CancelRow(d.tables.payouts[id]).Some? {
      UndoneKeeps(d, P.Change(d.tables, id, P.CancelRow), id, true);
    }
  }

  /** A payout becomes undone, and the money is given back unless it was already. */
  lemma {:induction false} UndoneKeeps(d: Db, tables: P.Tables, id: P.PayoutId, declined: bool)
    requires DbOk(d) && TouchedOnly(d.tables, tables, id) && tables.payouts[id].amount == d.tables.payouts[id].amount
    requires Undone(tables.payouts[id]) && tables.payouts[id].status != P.PendingReview
    requires !declined ==> d.tables.payouts[id].status != P.PendingReview
    requires GiveBackOnce(d.(tables := tables), id, declined).Ok?
    ensures var e := GiveBackOnce(d.(tables := tables), id, declined).value; DbOk(e) && Worths(d, e)
  {
    var e := GiveBackOnce(d.(tables := tables), id, declined).value;
    match Find(d.requests, id) {
      case None => NoMoneyMoves(d, e, id);
      case Some(i) =>
        assert RequestOk(d, i);
        if d.requests[i].release.Some? {
          OnlyOne(d.requests, i);
          NoMoneyMoves(d, e, id);
        } else {
          GiveBackKeeps(d, tables, i, if declined then Declined else d.requests[i].review);
        }
    }
  }

  lemma {:induction false} OnlyOne(requests: seq<Request>, i: nat)
    requires Distinct(requests) && i < |requests|
    ensures forall j :: 0 <= j < |requests| && requests[j].payout == requests[i].payout ==> j == i
  {
    forall j | 0 <= j < |requests| && requests[j].payout == requests[i].payout ensures j == i {
      FindIs(requests, i);
      FindIs(requests, j);
    }
  }

  lemma {:induction false} FailKeeps(d: Db, id: P.PayoutId)
    requires DbOk(d) && id in d.tables.payouts && d.tables.payouts[id].transferId.Some? && Fail(d, id).Ok?
    ensures DbOk(Fail(d, id).value) && Worths(d, Fail(d, id).value)
  {
    if P.FailRow(d.tables.payouts[id]).Some? { UndoneKeeps(d, P.FailPayout(d.tables, id), id, false); }
  }

  lemma {:induction false} RecordKeeps(d: Db, id: P.PayoutId, transfer: nat)
    requires DbOk(d) && RecordPaid(d, id, transfer).Some?
    ensures DbOk(RecordPaid(d, id, transfer).value) && Worths(d, RecordPaid(d, id, transfer).value)
  {
    var e := RecordPaid(d, id, transfer).value;
    if e.tables != d.tables {
      forall i | 0 <= i < |d.requests| && d.requests[i].payout == id
        ensures Agrees(e.tables.payouts[id], e.requests[i])
      {
        assert RequestOk(d, i);
        FindIs(d.requests, i);
      }
      NoMoneyMoves(d, e, id);
    } else {
      assert e == d;
    }
  }

  lemma {:induction false} TakeBackKeeps(d: Db, user: UserId, i: nat)
    requires DbOk(d) && TakeBack(d, user, i).Ok?
    ensures DbOk(TakeBack(d, user, i).value) && Worths(d, TakeBack(d, user, i).value)
  {
    if TakeBack(d, user, i).value != d {
      assert RequestOk(d, i);
      var id := d.requests[i].payout;
      var tables := d.tables.(payouts := d.tables.payouts[id := d.tables.payouts[id].(status := P.Cancelled)]);
      GiveBackKeeps(d, tables, i, CancelledByPlayer);
    }
  }

  /** A new request with its payout and its reservation row. */
  ghost predicate Asked(d: Db, e: Db, added: Request) {
    && added.payout !in d.tables.payouts && added.release == None && e.requests == d.requests + [added]
    && !HasRequest(d.requests, added.user, added.request)
    && e.tables.payouts.Keys == d.tables.payouts.Keys + {added.payout}
    && Agrees(e.tables.payouts[added.payout], added)
    && (forall x :: x in d.tables.payouts ==> e.tables.payouts[x] == d.tables.payouts[x])
    && Extends(d.book, e.book) && |e.book.rows| == |d.book.rows| + 1 && added.reservation == |d.book.rows|
    && e.book.rows[|d.book.rows|].reference == Some(ReservationRef(added.user, added.request))
    && Booked(e.book, added)
    && e.book.balances == d.book.balances[added.user := e.book.balances[added.user]]
    && added.user in d.book.balances && e.book.balances[added.user] == d.book.balances[added.user] - added.amount
  }

  lemma {:induction false} AskedKeeps(d: Db, e: Db, added: Request)
    requires DbOk(d) && Asked(d, e, added)
    ensures DbOk(e) && Worths(d, e)
  {
    AskedAgrees(d, e, added);
    AskedIsDistinct(d, e, added);
    AskedIsFound(d, e, added);
    assert e.requests[|d.requests|] == added;
    assert PointsAt(added, e.book.rows[|d.book.rows|], |d.book.rows|);
    ExplainedStill(d, e);
    UniqueStill(d.book, e.book);
    forall u | u in d.book.balances ensures Worth(e, u) == Worth(d, u) { HeldAppend(d.requests, added, u); }
  }

  lemma {:induction false} AskedAgrees(d: Db, e: Db, added: Request)
    requires DbOk(d) && Asked(d, e, added)
    ensures forall i: nat {:trigger RequestOk(e, i)} :: i < |e.requests| ==> RequestOk(e, i)
  {
    forall i: nat | i < |e.requests| ensures RequestOk(e, i) {
      if i < |d.requests| {
        assert RequestOk(d, i);
        BookedStill(d.book, e.book, d.requests[i]);
      }
    }
  }

  lemma {:induction false} AskedIsDistinct(d: Db, e: Db, added: Request)
    requires DbOk(d) && Asked(d, e, added)
    ensures Distinct(e.requests)
  {
    forall i | 0 <= i < |d.requests|
      ensures d.requests[i].payout != added.payout
      ensures !(d.requests[i].user == added.user && d.requests[i].request == added.request)
    {
      assert RequestOk(d, i);
    }
  }

  lemma {:induction false} AskedIsFound(d: Db, e: Db, added: Request)
    requires DbOk(d) && Asked(d, e, added)
    ensures forall id :: id in e.tables.payouts && e.tables.payouts[id].withdrawal ==> Find(e.requests, id).Some?
  {
    assert e.requests[|d.requests|] == added;
    forall x | x in e.tables.payouts && e.tables.payouts[x].withdrawal ensures Find(e.requests, x).Some? {
      if x != added.payout {
        var i := Find(d.requests, x).value;
        assert e.requests[i].payout == x;
      }
    }
  }

  lemma {:induction false} AskKeeps(d: Db, id: P.PayoutId, user: UserId, request: nat, amount: nat, verified: bool)
    requires DbOk(d) && id !in d.tables.payouts && !HasRequest(d.requests, user, request)
    requires Ask(d, id, user, request, amount, true, verified).Ok?
    ensures var e := Ask(d, id, user, request, amount, true, verified).value; DbOk(e) && Worths(d, e)
  {
    var e := Ask(d, id, user, request, amount, true, verified).value;
    RecordExtends(d.book, ReservationEntry(user, request, amount));
    AskedKeeps(d, e, e.requests[|d.requests|]);
  }

  // ---- every step -----------------------------------------------------------------------------------

  /** The payouts themselves change as `Payouts` says, or not at all. */
  lemma {:induction false} PaysLikePayouts(o: Office, s: P.Step)
    ensures World(Pay(o, s)) == P.Next(World(o), s) || Pay(o, s) == o
  {
    match s {
      case CancelStep(id) => GiveBackOnceKeepsTables(o.db, P.Change(o.db.tables, id, P.CancelRow), id, true);
      case TransferFailed(id, _) => GiveBackOnceKeepsTables(o.db, P.FailPayout(o.db.tables, id), id, false);
      case _ =>
    }
  }

  lemma {:induction false} GiveBackOnceKeepsTables(d: Db, tables: P.Tables, id: P.PayoutId, declined: bool)
    ensures GiveBackOnce(d.(tables := tables), id, declined).Ok? ==>
      GiveBackOnce(d.(tables := tables), id, declined).value.tables == tables
  {
  }

  lemma {:induction false} AddingKeepsGood(w: P.World, id: P.PayoutId, row: P.Row)
    requires P.Good(w) && id !in w.tables.payouts && row.transferId == None && row.status == P.PendingReview
    ensures P.Good(w.(tables := w.tables.(payouts := w.tables.payouts[id := row])))
  {
    var v := w.(tables := w.tables.(payouts := w.tables.payouts[id := row]));
    forall i: nat | i < |v.transfers| ensures P.Known(v, i) {
      assert P.Known(w, i);
      var x :| x in w.tables.payouts && P.TransferOf(w, x, i);
      assert P.TransferOf(v, x, i);
    }
    forall x | x in v.tables.payouts ensures P.RowOk(v, x) {
      if x != id {
        assert P.RowOk(w, x);
      } else if P.HasEntry(w.tables.ledger, P.Reference(id)) {
        var i :| 0 <= i < |w.tables.ledger| && w.tables.ledger[i].reference == P.Reference(id);
        P.KeysTellPayoutsApart(id, w.tables.ledger[i].payout);
      }
    }
    forall k | k in v.workers ensures P.WorkerOk(v, v.workers[k]) { assert P.WorkerOk(w, w.workers[k]); }
  }

  /** What other steps of a payout leave alone. */
  predicate SameStanding(a: P.Row, b: P.Row) {
    b.withdrawal == a.withdrawal && b.amount == a.amount && b.transferId == a.transferId &&
      (b.status == a.status || {a.status, b.status} <= {P.Approved, P.Processing})
  }

  predicate Quiet(s: P.Step) {
    !s.ApproveStep? && !s.CancelStep? && !s.TransferFailed? && !s.Record?
  }

  lemma {:induction false} QuietStepsKeepStanding(w: P.World, s: P.Step)
    requires P.Good(w) && Quiet(s)
    ensures P.Next(w, s).tables.payouts.Keys == w.tables.payouts.Keys
    ensures forall x :: x in w.tables.payouts ==> SameStanding(w.tables.payouts[x], P.Next(w, s).tables.payouts[x])
  {
  }

  lemma {:induction false} QuietKeeps(d: Db, e: Db)
    requires DbOk(d) && e.requests == d.requests && e.book == d.book
    requires e.tables.payouts.Keys == d.tables.payouts.Keys
    requires forall x :: x in d.tables.payouts ==> SameStanding(d.tables.payouts[x], e.tables.payouts[x])
    ensures DbOk(e) && Worths(d, e)
  {
    forall i: nat | i < |e.requests| ensures RequestOk(e, i) { assert RequestOk(d, i); }
    forall k: nat | k < |e.book.rows| ensures Explained(e.requests, e.book.rows[k], k) {
      assert Explained(d.requests, d.book.rows[k], k);
    }
    forall u | u in d.book.balances ensures Worth(e, u) == Worth(d, u) {}
  }

  lemma {:induction false} PayKeeps(o: Office, s: P.Step)
    requires Good(o)
    ensures Good(Pay(o, s)) && Worths(o.db, Pay(o, s).db)
  {
    PaysLikePayouts(o, s);
    P.NextKeepsGood(World(o), s);
    match s {
      case ApproveStep(id) => ApproveKeeps(o.db, id);
      case CancelStep(id) => if Cancel(o.db, id).Ok? { CancelKeeps(o.db, id); }
      case TransferFailed(id, i) =>
        if P.Recorded(o.db.tables, id, i) && Fail(o.db, id).Ok? { FailKeeps(o.db, id); }
      case Record(k) =>
        if k in o.workers && o.workers[k].Got? && RecordPaid(o.db, o.workers[k].id, o.workers[k].transfer).Some? {
          RecordKeeps(o.db, o.workers[k].id, o.workers[k].transfer);
        }
      case _ =>
        QuietStepsKeepStanding(World(o), s);
        QuietKeeps(o.db, Pay(o, s).db);
    }
  }

  lemma {:induction false} TakingBackKeeps(o: Office, user: UserId, i: nat)
    requires Good(o) && TakeBack(o.db, user, i).Ok?
    ensures Good(o.(db := TakeBack(o.db, user, i).value)) && Worths(o.db, TakeBack(o.db, user, i).value)
  {
    TakeBackKeeps(o.db, user, i);
    if TakeBack(o.db, user, i).value != o.db {
      assert RequestOk(o.db, i);
      var cancel := P.CancelStep(o.db.requests[i].payout);
      P.NextKeepsGood(World(o), cancel);
      assert World(o.(db := TakeBack(o.db, user, i).value)) == P.Next(World(o), cancel);
    }
  }

  lemma {:induction false} AskingKeeps(o: Office, id: P.PayoutId, user: UserId, request: nat, amount: nat,
      eligible: bool, verified: bool)
    requires Good(o) && id !in o.db.tables.payouts && Ask(o.db, id, user, request, amount, eligible, verified).Ok?
    ensures var d := Ask(o.db, id, user, request, amount, eligible, verified).value;
      Good(o.(db := d)) && Worths(o.db, d)
  {
    if !HasRequest(o.db.requests, user, request) {
      AskKeeps(o.db, id, user, request, amount, verified);
      AddingKeepsGood(World(o), id, NewRow(amount, verified));
    }
  }

  /** What a step brings a player from elsewhere: only a movement of other money does. */
  function Gained(o: Office, s: Step, user: UserId): int {
    if s.Moving? && s.entry.user == user && Act(o, s) != o then s.entry.amount else 0
  }

  lemma {:induction false} MovingKeeps(o: Office, entry: L.Entry<Ref>)
    requires Good(o)
    ensures var n := Act(o, Moving(entry));
      && Good(n) && n.db.book.balances.Keys == o.db.book.balances.Keys
      && forall u :: u in o.db.book.balances ==> Worth(n.db, u) == Worth(o.db, u) + Gained(o, Moving(entry), u)
  {
    var n := Act(o, Moving(entry));
    if n != o {
      RecordExtends(o.db.book, entry);
      forall i: nat | i < |n.db.requests| ensures RequestOk(n.db, i) {
        assert RequestOk(o.db, i);
        BookedStill(o.db.book, n.db.book, o.db.requests[i]);
      }
      ExplainedStill(o.db, n.db);
      UniqueStill(o.db.book, n.db.book);
    }
  }

  lemma {:induction false} ActKeeps(o: Office, s: Step)
    requires Good(o)
    ensures Good(Act(o, s)) && Act(o, s).db.book.balances.Keys == o.db.book.balances.Keys
    ensures forall u :: u in o.db.book.balances ==> Worth(Act(o, s).db, u) == Worth(o.db, u) + Gained(o, s, u)
  {
    match s {
      case Asking(id, user, request, amount, eligible, verified) =>
        if id !in o.db.tables.payouts && Ask(o.db, id, user, request, amount, eligible, verified).Ok? {
          AskingKeeps(o, id, user, request, amount, eligible, verified);
        }
      case TakingBack(user, i) => if TakeBack(o.db, user, i).Ok? { TakingBackKeeps(o, user, i); }
      case Paying(step) => PayKeeps(o, step);
      case Moving(entry) => MovingKeeps(o, entry);
    }
  }

  // ---- every run --------------------------------------------------------------------------------------

  /** Before the first withdrawal; other payouts may wait. */
  ghost predicate Opening(o: Office) {
    && P.Fresh(World(o)) && o.db.requests == [] && L.UniqueReferences(o.db.book.rows)
    && (forall id :: id in o.db.tables.payouts ==> !o.db.tables.payouts[id].withdrawal)
    && (forall k :: 0 <= k < |o.db.book.rows| ==> !OurRow(o.db.book.rows[k]))
  }

  /** What a run brings a player from elsewhere. */
  function Earned(o: Office, steps: seq<Step>, user: UserId): int {
    if steps == [] then 0
    else
      var init := steps[..|steps| - 1];
      Earned(o, init, user) + Gained(Run(o, init), steps[|steps| - 1], user)
  }

  lemma {:induction false} RunKeeps(o: Office, steps: seq<Step>, user: UserId)
    requires Good(o) && user in o.db.book.balances
    ensures Good(Run(o, steps)) && user in Run(o, steps).db.book.balances
    ensures Worth(Run(o, steps).db, user) == Worth(o.db, user) + Earned(o, steps, user)
    decreases |steps|
  {
    if steps == [] {
    } else {
      var init := steps[..|steps| - 1];
      RunKeeps(o, init, user);
      ActKeeps(Run(o, init), steps[|steps| - 1]);
    }
  }

  /**
   * Over every run of requests, cancellations by players and admins, approvals, transfers with
   * lost responses and crashes, failure reports and other movements of money: a wallet holds
   * what came from elsewhere less the withdrawals that were not given back, and a withdrawal
   * is given back, once and in full, exactly when its payout is cancelled or failed after
   * being paid; its reservation is completed exactly while the payout is paid.
   */
  lemma {:induction false} EveryRun(o: Office, steps: seq<Step>, user: UserId)
    requires Opening(o) && user in o.db.book.balances
    ensures var q := Run(o, steps).db;
      && user in q.book.balances
      && q.book.balances[user] == o.db.book.balances[user] + Earned(o, steps, user) - Held(q.requests, user)
      && L.UniqueReferences(q.book.rows)
      && (forall i: nat {:trigger RequestOk(q, i)} :: i < |q.requests| ==> RequestOk(q, i))
  {
    P.FreshIsGood(World(o));
    RunKeeps(o, steps, user);
  }

  // ---- when money cannot be given back --------------------------------------------------------------------

  /** The payout belongs to a withdrawal not given back, of a player whose wallet is overdrawn. */
  predicate Overdrawn(d: Db, id: P.PayoutId) {
    exists i :: 0 <= i < |d.requests| && d.requests[i].payout == id && d.requests[i].release.None? &&
      d.requests[i].user in d.book.balances && d.book.balances[d.requests[i].user] < 0
  }

  lemma {:induction false} GiveBackOnceExactlyWhen(d: Db, id: P.PayoutId, declined: bool, tables: P.Tables)
    requires DbOk(d)
    ensures GiveBackOnce(d.(tables := tables), id, declined).Err? <==> Overdrawn(d, id)
  {
    match Find(d.requests, id) {
      case None =>
      case Some(i) =>
        OnlyOne(d.requests, i);
        if d.requests[i].release.None? {
          GiveBackExactlyWhen(d, i, if declined then Declined else d.requests[i].review, tables);
          assert Overdrawn(d, id) <==> d.book.balances[d.requests[i].user] < 0;
        }
    }
  }

  /**
   * A payout that its status lets an admin cancel, or Stripe's report fail, stays as it is exactly when
   * it has a player's money to give back and the player's wallet is overdrawn.
   */
  lemma {:induction false} RefusedExactlyWhenOverdrawn(o: Office, id: P.PayoutId, transfer: nat)
    requires Good(o) && id in o.db.tables.payouts
    ensures P.CancelRow(o.db.tables.payouts[id]).Some? ==>
      (Act(o, Paying(P.CancelStep(id))) == o <==> Overdrawn(o.db, id))
    ensures o.db.tables.payouts[id].status == P.Paid && P.Recorded(o.db.tables, id, transfer) ==>
      (Act(o, Paying(P.TransferFailed(id, transfer))) == o <==> Overdrawn(o.db, id))
  {
    GiveBackOnceExactlyWhen(o.db, id, true, P.Change(o.db.tables, id, P.CancelRow));
    GiveBackOnceExactlyWhen(o.db, id, false, P.FailPayout(o.db.tables, id));
    GiveBackOnceKeepsTables(o.db, P.Change(o.db.tables, id, P.CancelRow), id, true);
    GiveBackOnceKeepsTables(o.db, P.FailPayout(o.db.tables, id), id, false);
  }

  // ---- money given back and sent ------------------------------------------------------------------------------

  /** The wallet has the money back, Stripe was told to send it, and no row says so. */
  ghost predicate Doubled(o: Office, i: nat) {
    && i < |o.db.requests| && o.db.requests[i].release.Some? && o.db.requests[i].payout in o.db.tables.payouts
    && o.db.tables.payouts[o.db.requests[i].payout].transferId == None
    && P.TransfersFor(World(o), o.db.requests[i].payout) != {}
  }

  ghost predicate CanDouble(o: Office, i: nat) {
    exists steps :: Doubled(Run(o, steps), i)
  }

  /** The payout is cancelled, no transfer of it exists and no worker holds a claim on it. */
  ghost predicate Shut(o: Office, i: nat) {
    i < |o.db.requests| && P.Clean(World(o), o.db.requests[i].payout)
  }

  lemma {:induction false} RequestsStay(o: Office, s: Step, i: nat)
    requires i < |o.db.requests|
    ensures i < |Act(o, s).db.requests| && Act(o, s).db.requests[i].payout == o.db.requests[i].payout
  {
    match s {
      case Paying(step) => PayRequestsStay(o, step, i);
      case _ =>
    }
  }

  lemma {:induction false} PayRequestsStay(o: Office, s: P.Step, i: nat)
    requires i < |o.db.requests|
    ensures i < |Pay(o, s).db.requests| && Pay(o, s).db.requests[i].payout == o.db.requests[i].payout
  {
    match s {
      case CancelStep(id) => GiveBackOnceStays(o.db, P.Change(o.db.tables, id, P.CancelRow), id, true, i);
      case TransferFailed(id, _) => GiveBackOnceStays(o.db, P.FailPayout(o.db.tables, id), id, false, i);
      case _ =>
    }
  }

  lemma {:induction false} GiveBackOnceStays(d: Db, tables: P.Tables, id: P.PayoutId, declined: bool, i: nat)
    requires i < |d.requests|
    ensures var e := Committed(d, GiveBackOnce(d.(tables := tables), id, declined));
      i < |e.requests| && e.requests[i].payout == d.requests[i].payout
  {
  }

  lemma {:induction false} ShutStays(o: Office, s: Step, i: nat)
    requires Good(o) && Shut(o, i)
    ensures Shut(Act(o, s), i)
  {
    RequestsStay(o, s, i);
    var id := o.db.requests[i].payout;
    match s {
      case Paying(step) =>
        PaysLikePayouts(o, step);
        P.CleanStaysClean(World(o), step, id);
      case _ => SameOutside(o, s, id);
    }
  }

  /** Requests and other movements leave a cancelled payout, the transfers and the workers alone. */
  lemma {:induction false} SameOutside(o: Office, s: Step, id: P.PayoutId)
    requires !s.Paying? && id in o.db.tables.payouts && o.db.tables.payouts[id].status == P.Cancelled
    ensures id in Act(o, s).db.tables.payouts && Act(o, s).db.tables.payouts[id].status == P.Cancelled
    ensures Act(o, s).transfers == o.transfers && Act(o, s).workers == o.workers
  {
  }

  lemma {:induction false} ShutForever(o: Office, steps: seq<Step>, i: nat, user: UserId)
    requires Good(o) && Shut(o, i) && user in o.db.book.balances
    ensures Shut(Run(o, steps), i)
    decreases |steps|
  {
    if steps == [] {
    } else {
      var init := steps[..|steps| - 1];
      ShutForever(o, init, i, user);
      RunKeeps(o, init, user);
      ShutStays(Run(o, init), steps[|steps| - 1], i);
    }
  }

  lemma {:induction false} OneMoreStep(o: Office, steps: seq<Step>, s: Step)
    ensures Run(o, steps + [s]) == Act(Run(o, steps), s)
  {
    assert (steps + [s])[..|steps|] == steps;
  }

  /**
   * Money that a cancellation gave back can still turn out to have been sent as well, now or
   * after some further steps, if and only if a transfer was made or a worker holds a claim.
   */
  lemma {:induction false} CanDoubleExactlyWhen(o: Office, i: nat)
    requires Good(o) && i < |o.db.requests| && o.db.requests[i].release.Some?
    requires o.db.requests[i].payout in o.db.tables.payouts
    requires o.db.tables.payouts[o.db.requests[i].payout].transferId == None
    ensures CanDouble(o, i)
       <==> P.TransfersFor(World(o), o.db.requests[i].payout) != {} || P.ClaimHeld(World(o), o.db.requests[i].payout)
  {
    var id := o.db.requests[i].payout;
    assert RequestOk(o.db, i);
    if P.TransfersFor(World(o), id) != {} {
      assert Doubled(Run(o, []), i);
    } else if P.ClaimHeld(World(o), id) {
      var k :| k in o.workers && o.workers[k] == P.Claimed(id);
      var send := Paying(P.StripeAccepts(k, false));
      OneMoreStep(o, [], send);
      P.SentNow(World(o), id, k);
      assert Doubled(Run(o, [] + [send]), i);
    } else {
      forall steps ensures !Doubled(Run(o, steps), i) { ShutForever(o, steps, i, o.db.requests[i].user); }
    }
  }

  /** A step of the transfer protocol that touches neither requests nor wallets. */
  lemma {:induction false} QuietStep(o: Office, s: P.Step, n: Office)
    requires Good(o) && Quiet(s) && n == Act(o, Paying(s))
    ensures Good(n) && World(n) == P.Next(World(o), s) && n.db.requests == o.db.requests && n.db.book == o.db.book
  {
    PayKeeps(o, s);
  }

  /** A cancelled payout whose player is not overdrawn gives the money back. */
  lemma {:induction false} CancelGivesBack(o: Office, i: nat, n: Office)
    requires Good(o) && i < |o.db.requests| && o.db.requests[i].release.None?
    requires o.db.requests[i].user in o.db.book.balances && o.db.book.balances[o.db.requests[i].user] >= 0
    requires o.db.requests[i].payout in o.db.tables.payouts
    requires P.CancelRow(o.db.tables.payouts[o.db.requests[i].payout]).Some?
    requires n == Act(o, Paying(P.CancelStep(o.db.requests[i].payout)))
    ensures World(n) == P.Next(World(o), P.CancelStep(o.db.requests[i].payout))
    ensures |n.db.requests| == |o.db.requests| && n.db.requests[i].release.Some?
    ensures n.db.requests[i].payout == o.db.requests[i].payout
    ensures var user := o.db.requests[i].user;
      user in n.db.book.balances && n.db.book.balances[user] == o.db.book.balances[user] + o.db.requests[i].amount
  {
    var id := o.db.requests[i].payout;
    FindIs(o.db.requests, i);
    GiveBackExactlyWhen(o.db, i, Declined, P.Change(o.db.tables, id, P.CancelRow));
  }

  /** Begun, claimed, sent with the response lost, released. */
  function Attempted(o: Office, id: P.PayoutId, k: nat): Office {
    Act(Act(Act(Act(o, Paying(P.Begin(k, id, false))), Paying(P.Claim(k))), Paying(P.StripeAccepts(k, true))),
        Paying(P.Release(k)))
  }

  function Attempt(id: P.PayoutId, k: nat): seq<Step> {
    [Paying(P.Begin(k, id, false)), Paying(P.Claim(k)), Paying(P.StripeAccepts(k, true)), Paying(P.Release(k))]
  }

  lemma {:induction false} AttemptedIs(o: Office, id: P.PayoutId, k: nat)
    requires Good(o)
    ensures var e := Attempted(o, id, k);
      && Good(e) && e.db.requests == o.db.requests && e.db.book == o.db.book
      && World(e) == P.Next(P.Next(P.Next(P.Next(World(o), P.Begin(k, id, false)), P.Claim(k)),
                            P.StripeAccepts(k, true)), P.Release(k))
  {
    var a := Act(o, Paying(P.Begin(k, id, false)));
    var b := Act(a, Paying(P.Claim(k)));
    var c := Act(b, Paying(P.StripeAccepts(k, true)));
    QuietStep(o, P.Begin(k, id, false), a);
    QuietStep(a, P.Claim(k), b);
    QuietStep(b, P.StripeAccepts(k, true), c);
    QuietStep(c, P.Release(k), Attempted(o, id, k));
  }

  lemma {:induction false} AttemptRuns(start: Office, steps: seq<Step>, id: P.PayoutId, k: nat)
    ensures Run(start, steps + Attempt(id, k)) == Attempted(Run(start, steps), id, k)
  {
    var s := Attempt(id, k);
    OneMoreStep(start, steps, s[0]);
    OneMoreStep(start, steps + [s[0]], s[1]);
    OneMoreStep(start, steps + [s[0]] + [s[1]], s[2]);
    OneMoreStep(start, steps + [s[0]] + [s[1]] + [s[2]], s[3]);
    assert steps + s == steps + [s[0]] + [s[1]] + [s[2]] + [s[3]];
  }

  /** An approved withdrawal is sent with the response lost, released and cancelled: transfer hidden, money back. */
  lemma {:induction false} HiddenThenCancelled(o: Office, i: nat, k: nat, n: Office)
    requires Good(o) && i < |o.db.requests| && o.db.requests[i].release.None? && k !in o.workers
    requires o.db.requests[i].user in o.db.book.balances && o.db.book.balances[o.db.requests[i].user] >= 0
    requires var id := o.db.requests[i].payout;
      && id in o.db.tables.payouts && o.db.tables.payouts[id].status == P.Approved
      && P.Processable(o.db.tables.payouts[id], o.now)
    requires n == Act(Attempted(o, o.db.requests[i].payout, k), Paying(P.CancelStep(o.db.requests[i].payout)))
    ensures Doubled(n, i) && o.db.requests[i].user in n.db.book.balances
    ensures n.db.book.balances[o.db.requests[i].user]
         == o.db.book.balances[o.db.requests[i].user] + o.db.requests[i].amount
  {
    var id := o.db.requests[i].payout;
    AttemptedIs(o, id, k);
    P.CancelCanHideATransfer(World(o), id, k);
    CancelGivesBack(Attempted(o, id, k), i, n);
  }

  /** A player with the money asks for a withdrawal. */
  lemma {:induction false} AskGoesThrough(d: Db, id: P.PayoutId, user: UserId, request: nat, amount: nat)
    requires DbOk(d) && id !in d.tables.payouts && !HasRequest(d.requests, user, request)
    requires user in d.book.balances && d.book.balances[user] >= amount
    ensures Ask(d, id, user, request, amount, true, true).Ok?
    ensures var e := Ask(d, id, user, request, amount, true, true).value;
      && e.requests
           == d.requests + [Request(id, user, request, amount, PendingReview, Reserved, |d.book.rows|, None)]
      && e.tables.payouts == d.tables.payouts[id := NewRow(amount, true)]
      && e.book.balances == d.book.balances[user := d.book.balances[user] - amount]
  {
    FreshReservation(d, user, request);
  }

  /** An admin approves a request under review. */
  lemma {:induction false} ApprovalIs(d: Db, i: nat)
    requires DbOk(d) && i < |d.requests| && d.requests[i].payout in d.tables.payouts
    requires d.requests[i].review == PendingReview && d.tables.payouts[d.requests[i].payout].status == P.PendingReview
    ensures var e := Approve(d, d.requests[i].payout);
      && e.requests == d.requests[i := d.requests[i].(review := Approved)] && e.book == d.book
      && e.tables.payouts == d.tables.payouts[d.requests[i].payout :=
                               d.tables.payouts[d.requests[i].payout].(status := P.Approved)]
  {
    FindIs(d.requests, i);
  }

  lemma {:induction false} AskedAndApproved(o: Office, id: P.PayoutId, user: UserId, request: nat, amount: nat,
      asked: Office, n: Office)
    requires Good(o) && id !in o.db.tables.payouts && !HasRequest(o.db.requests, user, request)
    requires user in o.db.book.balances && o.db.book.balances[user] >= amount
    requires asked == Act(o, Asking(id, user, request, amount, true, true))
    requires n == Act(asked, Paying(P.ApproveStep(id)))
    ensures Good(n) && n.workers == o.workers && |n.db.requests| == |o.db.requests| + 1
    ensures var r := n.db.requests[|o.db.requests|];
      r.payout == id && r.user == user && r.amount == amount && r.release == None
    ensures id in n.db.tables.payouts && n.db.tables.payouts[id] == NewRow(amount, true).(status := P.Approved)
    ensures n.db.book.balances == o.db.book.balances[user := o.db.book.balances[user] - amount]
  {
    AskGoesThrough(o.db, id, user, request, amount);
    assert Good(asked) by { ActKeeps(o, Asking(id, user, request, amount, true, true)); }
    ApprovalIs(asked.db, |o.db.requests|);
    assert Good(n) by { PayKeeps(asked, P.ApproveStep(id)); }
  }

  /**
   * Any player with money can end up with a withdrawal sent and given back: asked for,
   * approved, sent with the response lost, released and declined, after which the wallet
   * is what it was before.
   */
  lemma {:induction false} GivenBackAndSent(o: Office, id: P.PayoutId, user: UserId, request: nat, amount: nat, k: nat)
      returns (steps: seq<Step>)
    requires Good(o) && id !in o.db.tables.payouts && !HasRequest(o.db.requests, user, request) && k !in o.workers
    requires user in o.db.book.balances && o.db.book.balances[user] >= amount > 0
    ensures Doubled(Run(o, steps), |o.db.requests|)
    ensures user in Run(o, steps).db.book.balances &&
      Run(o, steps).db.book.balances[user] == o.db.book.balances[user]
  {
    var ask, approve := Asking(id, user, request, amount, true, true), Paying(P.ApproveStep(id));
    var approved := Act(Act(o, ask), approve);
    AskedAndApproved(o, id, user, request, amount, Act(o, ask), approved);
    OneMoreStep(o, [], ask);
    OneMoreStep(o, [] + [ask], approve);
    AttemptRuns(o, [] + [ask] + [approve], id, k);
    var sent := [] + [ask] + [approve] + Attempt(id, k);
    OneMoreStep(o, sent, Paying(P.CancelStep(id)));
    steps := sent + [Paying(P.CancelStep(id))];
    HiddenThenCancelled(approved, |o.db.requests|, k, Run(o, steps));
  }

  // ---- the repositories -----------------------------------------------------------------------------------------

  /** The tables of payouts and withdrawals; each method is one transaction of the two repositories. */
  class PayoutTables {
    var payouts: map<P.PayoutId, P.Row>
    var ledger: seq<P.Entry>
    var requests: seq<Request>
    var book: L.Book<Ref>

    function Value(): Db
      reads this
    {
      Db(P.Tables(payouts, ledger), requests, book)
    }

    /** A second approval of the same payout changes no row. */
    method ApprovePayout(id: P.PayoutId) returns (count: nat)
      modifies this`payouts, this`requests
      ensures Value() == Approve(old(Value()), id)
      ensures count == if id in old(payouts) && P.ApproveRow(old(payouts)[id]).Some? then 1 else 0
    {
      count := 0;
      if id in payouts && payouts[id].status in {P.Pending, P.PendingReview, P.Failed} {
        payouts := payouts[id := payouts[id].(status := P.Approved)];
        var i := Find(requests, id);
        if i.Some? && requests[i.value].review == PendingReview {
          requests := requests[i.value := requests[i.value].(review := Approved)];
        }
        count := 1;
      }
    }

    method CancelPayout(id: P.PayoutId) returns (count: nat, failure: Option<Failure>)
      modifies this`payouts, this`requests, this`book
      ensures failure == WhyRefused(Cancel(old(Value()), id))
      ensures Value() == Committed(old(Value()), Cancel(old(Value()), id))
      ensures count == if failure == None && id in old(payouts) && P.CancelRow(old(payouts)[id]).Some? then 1 else 0
    {
      count, failure := 0, None;
      if id in payouts && payouts[id].status in {P.Pending, P.PendingReview, P.Approved, P.Failed} {
        var previous := payouts;
        payouts := payouts[id := payouts[id].(status := P.Cancelled)];
        failure := Release(id, true);
        if failure.Some? {
          payouts := previous;
        } else {
          count := 1;
        }
      }
    }

    /** Gives a withdrawal's money back unless it was already. */
    method Release(id: P.PayoutId, declined: bool) returns (failure: Option<Failure>)
      modifies this`requests, this`book
      ensures failure == WhyRefused(GiveBackOnce(old(Value()), id, declined))
      ensures Value() == Committed(old(Value()), GiveBackOnce(old(Value()), id, declined))
    {
      failure := None;
      var i := Find(requests, id);
      if i.Some? && requests[i.value].release.None? {
        failure := ReleaseAt(i.value, if declined then Declined else requests[i.value].review);
      }
    }

    method ReleaseAt(i: nat, review: Review) returns (failure: Option<Failure>)
      requires i < |requests|
      modifies this`requests, this`book
      ensures failure == WhyRefused(GiveBack(old(Value()), i, review))
      ensures Value() == Committed(old(Value()), GiveBack(old(Value()), i, review))
    {
      var outcome := L.Record(book, ReleaseEntry(requests[i]));
      if outcome.Err? {
        return Some(NotRecorded(outcome.error));
      }
      requests := requests[i := requests[i].(review := review, money := Reversed, release := Some(|book.rows|))];
      book := outcome.value;
      failure := None;
    }

    /** Exactly one of several concurrent callers gets the claim: the first changes what the others test. */
    method ClaimForProcessing(id: P.PayoutId, now: int) returns (claimed: bool)
      modifies this`payouts
      ensures claimed <==> id in old(payouts) && P.ClaimRow(old(payouts)[id], now).Some?
      ensures Value().tables == if claimed then P.Updated(old(Value()).tables, id, P.ClaimRow(old(payouts)[id], now))
                                else old(Value()).tables
      ensures claimed ==> forall later :: later < now + P.RECOVERY_MS ==> P.ClaimRow(payouts[id], later) == None
    {
      if id in payouts && payouts[id].status == P.Approved && payouts[id].transferId == None {
        payouts := payouts[id := payouts[id].(status := P.Processing, processedAt := Some(now))];
        return true;
      }
      if id in payouts && payouts[id].status == P.Processing && payouts[id].transferId == None
         && payouts[id].processedAt.Some? && payouts[id].processedAt.value <= now - P.RECOVERY_MS {
        payouts := payouts[id := payouts[id].(processedAt := Some(now))];
        return true;
      }
      claimed := false;
    }

    method MarkPaid(id: P.PayoutId, transfer: nat) returns (paid: bool)
      modifies this`payouts, this`ledger, this`requests
      ensures paid <==> RecordPaid(old(Value()), id, transfer).Some?
      ensures Value() == if paid then RecordPaid(old(Value()), id, transfer).value else old(Value())
    {
      if id !in payouts {
        return false;
      }
      var row := payouts[id];
      if (row.status == P.Processing || row.status == P.Approved) && row.transferId == None {
        if !row.withdrawal && P.HasEntry(ledger, P.Reference(id)) {
          return false;
        }
        payouts := payouts[id := row.(status := P.Paid, transferId := Some(transfer))];
        if !row.withdrawal {
          ledger := ledger + [P.Entry(P.Reference(id), id, row.amount, false)];
        }
        var i := Find(requests, id);
        if i.Some? {
          requests := requests[i.value := requests[i.value].(money := Completed)];
        }
        return true;
      }
      paid := row.status == P.Paid && row.transferId == Some(transfer) &&
        (row.withdrawal || P.HasEntry(ledger, P.Reference(id)));
    }

    method ReleaseAfterFailure(id: P.PayoutId)
      modifies this`payouts
      ensures Value().tables == P.Change(old(Value()).tables, id, P.ReleaseRow)
    {
      if id in payouts && payouts[id].status == P.Processing {
        payouts := payouts[id := payouts[id].(status := P.Approved, processedAt := None)];
      }
    }

    method MarkFailed(id: P.PayoutId) returns (failure: Option<Failure>)
      modifies this`payouts, this`ledger, this`requests, this`book
      ensures failure == WhyRefused(Fail(old(Value()), id))
      ensures Value() == Committed(old(Value()), Fail(old(Value()), id))
    {
      failure := None;
      if id in payouts && (payouts[id].status == P.Processing || payouts[id].status == P.Paid) {
        failure := Release(id, false);
        if failure.None? {
          payouts := payouts[id := payouts[id].(status := P.Failed, settled := false)];
          MarkEntriesFailed(id);
        }
      }
    }

    method MarkEntriesFailed(id: P.PayoutId)
      modifies this`ledger
      ensures ledger == P.FailEntries(old(ledger), id)
    {
      ghost var before := ledger;
      var i := 0;
      while i < |ledger|
        invariant 0 <= i <= |ledger| == |before|
        invariant forall j :: 0 <= j < |before| ==>
          ledger[j] == if j < i then P.FailEntries(before, id)[j] else before[j]
      {
        if ledger[i].payout == id {
          ledger := ledger[i := ledger[i].(failed := true)];
        }
        i := i + 1;
      }
    }

    method CreateRequest(id: P.PayoutId, user: UserId, request: nat, amount: nat, eligible: bool,
        verified: bool) returns (failure: Option<Failure>)
      requires id !in payouts
      modifies this`payouts, this`requests, this`book
      ensures var outcome := Ask(old(Value()), id, user, request, amount, eligible, verified);
        failure == WhyRefused(outcome) && Value() == Committed(old(Value()), outcome)
    {
      failure := None;
      if HasRequest(requests, user, request) {
        return;
      }
      if !eligible {
        return Some(Ineligible);
      }
      var outcome := L.Record(book, ReservationEntry(user, request, amount));
      if outcome.Err? {
        return Some(NotRecorded(outcome.error));
      }
      requests := requests + [Request(id, user, request, amount, PendingReview, Reserved, |book.rows|, None)];
      payouts := payouts[id := NewRow(amount, verified)];
      book := outcome.value;
    }

    method CancelOwned(user: UserId, i: nat) returns (failure: Option<Failure>)
      modifies this`payouts, this`requests, this`book
      ensures failure == WhyRefused(TakeBack(old(Value()), user, i))
      ensures Value() == Committed(old(Value()), TakeBack(old(Value()), user, i))
    {
      failure := None;
      if i < |requests| && requests[i].user == user && requests[i].review == PendingReview &&
         requests[i].release.None? && requests[i].payout in payouts {
        var id := requests[i].payout;
        failure := ReleaseAt(i, CancelledByPlayer);
        if failure.None? {
          payouts := payouts[id := payouts[id].(status := P.Cancelled)];
        }
      }
    }
  }
}
