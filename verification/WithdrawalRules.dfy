/**
 * What each step does to a withdrawal and to the money behind it, and why every
 * withdrawal of a run stands as it does.
 */
module WithdrawalRules {
  import opened Common
  import opened Withdrawals
  import L = Ledger
  import P = Payouts
  import T = TransferRules

  // ---- asking ------------------------------------------------------------------------------

  /** One more ledger row, and the player's balance moved by its amount. */
  ghost predicate Moved(b: L.Book<Ref>, e: L.Book<Ref>, user: UserId, amount: int, reference: Ref) {
    && user in b.balances && e.balances == b.balances[user := b.balances[user] + amount]
    && |e.rows| == |b.rows| + 1 && e.rows[..|b.rows|] == b.rows
    && RowIs(e.rows, |b.rows|, user, amount, reference)
  }

  ghost predicate AskedBefore(d: Db, user: UserId, request: nat) {
    exists i :: 0 <= i < |d.requests| && d.requests[i].user == user && d.requests[i].request == request
  }

  /** A payout under review over Stripe, and the request that reserves its amount. */
  ghost predicate Opened(d: Db, e: Db, id: P.PayoutId, user: UserId, request: nat, amount: nat, verified: bool) {
    && e.tables.ledger == d.tables.ledger
    && e.tables.payouts == d.tables.payouts[id := P.Row(P.PendingReview, amount, true, verified, true, None, None,
         false)]
    && e.requests == d.requests + [Request(id, user, request, amount, PendingReview, Reserved, |d.book.rows|, None)]
    && Moved(d.book, e.book, user, 0 - amount, ReservationRef(user, request))
  }

  /** A withdrawal is opened exactly for a covered amount; a repeated request is answered without a change. */
  lemma {:induction false} AskIsRight(d: Db, id: P.PayoutId, user: UserId, request: nat, amount: nat, eligible: bool,
      verified: bool)
    requires DbOk(d) && id !in d.tables.payouts
    ensures var outcome := Ask(d, id, user, request, amount, eligible, verified);
      && (AskedBefore(d, user, request) ==> outcome == Ok(d))
      && (!AskedBefore(d, user, request) ==>
         && (outcome.Ok? <==> eligible && user in d.book.balances && d.book.balances[user] >= amount)
         && (outcome.Ok? ==> Opened(d, outcome.value, id, user, request, amount, verified))
         && (outcome.Err? ==> (outcome.error == Ineligible <==> !eligible)))
  {
    if !HasRequest(d.requests, user, request) { FreshReservation(d, user, request); }
  }

  // ---- one step, one request ---------------------------------------------------------------------

  /** The money of the request is still out and its player's wallet is not overdrawn. */
  predicate MayReturn(d: Db, r: Request) {
    r.release.None? && r.user in d.book.balances && d.book.balances[r.user] >= 0
  }

  /** The step gives the money of the request back. */
  predicate Returns(o: Office, s: Step, i: nat)
    requires i < |o.db.requests|
  {
    var d, r := o.db, o.db.requests[i];
    && MayReturn(d, r) && r.payout in d.tables.payouts
    && var row := d.tables.payouts[r.payout];
      || (s == TakingBack(r.user, i) && r.review == PendingReview)
      || (s == Paying(P.CancelStep(r.payout)) && row.status in {P.Pending, P.PendingReview, P.Approved, P.Failed})
      || (s.Paying? && s.step.TransferFailed? && s.step.id == r.payout && row.status == P.Paid &&
          row.transferId == Some(s.step.transfer))
  }

  /** The step records the request's transfer. */
  predicate Completes(o: Office, s: Step, i: nat)
    requires i < |o.db.requests|
  {
    var r := o.db.requests[i];
    && s.Paying? && s.step.Record? && s.step.worker in o.workers && o.workers[s.step.worker].Got?
    && o.workers[s.step.worker].id == r.payout && r.payout in o.db.tables.payouts
    && o.db.tables.payouts[r.payout].transferId == None
    && o.db.tables.payouts[r.payout].status in {P.Approved, P.Processing}
  }

  function RequestAfter(o: Office, s: Step, i: nat): Request
    requires i < |o.db.requests|
  {
    var r := o.db.requests[i];
    if Returns(o, s, i) then
      var review := if s.TakingBack? then CancelledByPlayer else if s.step.CancelStep? then Declined else r.review;
      r.(review := review, money := Reversed, release := Some(|o.db.book.rows|))
    else if Completes(o, s, i) then r.(money := Completed)
    else if s == Paying(P.ApproveStep(r.payout)) && r.review == PendingReview then r.(review := Approved)
    else r
  }

  lemma {:induction false} RequestIsRight(o: Office, s: Step, i: nat)
    requires Good(o) && i < |o.db.requests|
    ensures i < |Act(o, s).db.requests| && Act(o, s).db.requests[i] == RequestAfter(o, s, i)
  {
    match s {
      case Asking(_, _, _, _, _, _) =>
      case TakingBack(user, j) => TakingBackIsRight(o, user, j, i);
      case Paying(step) =>
        match step {
          case CancelStep(x) => CancelIsRight(o, x, i);
          case TransferFailed(x, transfer) => FailureIsRight(o, x, transfer, i);
          case Record(k) => RecordIsRight(o, k, i);
          case ApproveStep(x) => ApprovalIsRight(o, x, i);
          case _ =>
        }
      case Moving(_) =>
    }
  }

  lemma {:induction false} TakingBackIsRight(o: Office, user: UserId, j: nat, i: nat)
    requires Good(o) && i < |o.db.requests|
    ensures i < |Act(o, TakingBack(user, j)).db.requests|
    ensures Act(o, TakingBack(user, j)).db.requests[i] == RequestAfter(o, TakingBack(user, j), i)
  {
    assert RequestOk(o.db, i);
    if j < |o.db.requests| && o.db.requests[j].release.None? && o.db.requests[j].payout in o.db.tables.payouts {
      var id := o.db.requests[j].payout;
      var row := o.db.tables.payouts[id].(status := P.Cancelled);
      GiveBackExactlyWhen(o.db, j, CancelledByPlayer,
        o.db.tables.(payouts := o.db.tables.payouts[id := row]));
    }
  }

  lemma {:induction false} ApprovalIsRight(o: Office, id: P.PayoutId, i: nat)
    requires Good(o) && i < |o.db.requests|
    ensures i < |Pay(o, P.ApproveStep(id)).db.requests|
    ensures Pay(o, P.ApproveStep(id)).db.requests[i] == RequestAfter(o, Paying(P.ApproveStep(id)), i)
  {
    assert RequestOk(o.db, i);
    FindIs(o.db.requests, i);
  }

  lemma {:induction false} ReturnedOnce(d: Db, tables: P.Tables, id: P.PayoutId, declined: bool, i: nat)
    requires DbOk(d) && i < |d.requests|
    ensures var e, r := Committed(d, GiveBackOnce(d.(tables := tables), id, declined)), d.requests[i];
      && |e.requests| == |d.requests|
      && e.requests[i] ==
         if r.payout == id && MayReturn(d, r) then
           r.(review := if declined then Declined else r.review, money := Reversed, release := Some(|d.book.rows|))
         else r
  {
    FindIs(d.requests, i);
    if d.requests[i].payout == id && d.requests[i].release.None? {
      GiveBackExactlyWhen(d, i, if declined then Declined else d.requests[i].review, tables);
    }
  }

  lemma {:induction false} CancelIsRight(o: Office, id: P.PayoutId, i: nat)
    requires Good(o) && i < |o.db.requests|
    ensures i < |Pay(o, P.CancelStep(id)).db.requests|
    ensures Pay(o, P.CancelStep(id)).db.requests[i] == RequestAfter(o, Paying(P.CancelStep(id)), i)
  {
    assert RequestOk(o.db, i);
    ReturnedOnce(o.db, P.Change(o.db.tables, id, P.CancelRow), id, true, i);
  }

  lemma {:induction false} FailureIsRight(o: Office, id: P.PayoutId, transfer: nat, i: nat)
    requires Good(o) && i < |o.db.requests|
    ensures i < |Pay(o, P.TransferFailed(id, transfer)).db.requests|
    ensures Pay(o, P.TransferFailed(id, transfer)).db.requests[i] ==
      RequestAfter(o, Paying(P.TransferFailed(id, transfer)), i)
  {
    assert RequestOk(o.db, i) && P.RowOk(World(o), o.db.requests[i].payout);
    ReturnedOnce(o.db, P.FailPayout(o.db.tables, id), id, false, i);
  }

  lemma {:induction false} RecordIsRight(o: Office, k: nat, i: nat)
    requires Good(o) && i < |o.db.requests|
    ensures i < |Pay(o, P.Record(k)).db.requests|
    ensures Pay(o, P.Record(k)).db.requests[i] == RequestAfter(o, Paying(P.Record(k)), i)
  {
    assert RequestOk(o.db, i);
    FindIs(o.db.requests, i);
    if k in o.workers && o.workers[k].Got? && o.workers[k].id in o.db.tables.payouts {
      assert P.WorkerOk(World(o), o.workers[k]) && P.RowOk(World(o), o.workers[k].id);
    }
  }

  // ---- one step, its payouts and its book -------------------------------------------------------------

  /** The step would give money back that does not fit: it changes nothing. */
  predicate Refused(o: Office, s: P.Step) {
    (s.CancelStep? || s.TransferFailed?) && Overdrawn(o.db, s.id)
  }

  /** A payout moves as without wallets, unless the wallet refuses; a player's own cancellation cancels it. */
  function PayoutAfter(o: Office, s: Step, id: P.PayoutId): P.Row
    requires id in o.db.tables.payouts
  {
    var row := o.db.tables.payouts[id];
    match s
    case Paying(step) => if Refused(o, step) then row else T.RowAfter(World(o), step, id, row)
    case TakingBack(_, i) =>
      if i < |o.db.requests| && o.db.requests[i].payout == id && Returns(o, s, i) then row.(status := P.Cancelled)
      else row
    case _ => row
  }

  lemma {:induction false} PayoutIsRight(o: Office, s: Step, id: P.PayoutId)
    requires Good(o) && id in o.db.tables.payouts
    ensures id in Act(o, s).db.tables.payouts && Act(o, s).db.tables.payouts[id] == PayoutAfter(o, s, id)
  {
    match s {
      case Asking(_, _, _, _, _, _) =>
      case TakingBack(user, i) =>
        if i < |o.db.requests| && o.db.requests[i].release.None? {
          var x := o.db.requests[i].payout;
          assert RequestOk(o.db, i);
          GiveBackExactlyWhen(o.db, i, CancelledByPlayer,
            o.db.tables.(payouts := o.db.tables.payouts[x := o.db.tables.payouts[x].(status := P.Cancelled)]));
        }
      case Paying(step) =>
        T.RowIsRight(World(o), step, id);
        PaidAsWithoutWallets(o, step);
      case Moving(_) =>
    }
  }

  lemma {:induction false} PaidAsWithoutWallets(o: Office, s: P.Step)
    requires Good(o)
    ensures Refused(o, s) ==> Pay(o, s).db == o.db
    ensures !Refused(o, s) ==> Pay(o, s).db.tables == P.Next(World(o), s).tables
  {
    match s {
      case CancelStep(x) =>
        GiveBackOnceExactlyWhen(o.db, x, true, P.Change(o.db.tables, x, P.CancelRow));
        GiveBackOnceKeepsTables(o.db, P.Change(o.db.tables, x, P.CancelRow), x, true);
      case TransferFailed(x, _) =>
        GiveBackOnceExactlyWhen(o.db, x, false, P.FailPayout(o.db.tables, x));
        GiveBackOnceKeepsTables(o.db, P.FailPayout(o.db.tables, x), x, false);
      case _ =>
    }
  }

  /**
   * The returned money goes to the player of the request; without a return, a request or another movement none moves.
   */
  lemma {:induction false} BookIsRight(o: Office, s: Step)
    requires Good(o)
    ensures forall i :: 0 <= i < |o.db.requests| && Returns(o, s, i) ==>
      var r := o.db.requests[i];
      Moved(o.db.book, Act(o, s).db.book, r.user, r.amount, ReleaseRef(r.payout))
    ensures !s.Asking? && !s.Moving? && (forall i :: 0 <= i < |o.db.requests| ==> !Returns(o, s, i)) ==>
      Act(o, s).db.book == o.db.book
  {
    forall i | 0 <= i < |o.db.requests| && Returns(o, s, i)
      ensures var r := o.db.requests[i];
        Moved(o.db.book, Act(o, s).db.book, r.user, r.amount, ReleaseRef(r.payout))
    {
      ReturnIsBooked(o, s, i);
    }
    if !s.Asking? && !s.Moving? && (forall i :: 0 <= i < |o.db.requests| ==> !Returns(o, s, i)) {
      NothingIsBooked(o, s);
    }
  }

  lemma {:induction false} ReturnIsBooked(o: Office, s: Step, i: nat)
    requires Good(o) && i < |o.db.requests| && Returns(o, s, i)
    ensures var r := o.db.requests[i];
      Moved(o.db.book, Act(o, s).db.book, r.user, r.amount, ReleaseRef(r.payout))
  {
    assert RequestOk(o.db, i);
    FindIs(o.db.requests, i);
    FreshRelease(o.db, i);
  }

  lemma {:induction false} NothingIsBooked(o: Office, s: Step)
    requires Good(o) && !s.Asking? && !s.Moving?
    requires forall i :: 0 <= i < |o.db.requests| ==> !Returns(o, s, i)
    ensures Act(o, s).db.book == o.db.book
  {
    if s.TakingBack? && s.i < |o.db.requests| {
      assert RequestOk(o.db, s.i) && !Returns(o, s, s.i);
      if o.db.requests[s.i].release.None? {
        GiveBackExactlyWhen(o.db, s.i, CancelledByPlayer, Act(o, s).db.tables);
      }
    }
    if s.Paying? && (s.step.CancelStep? || s.step.TransferFailed?) {
      match Find(o.db.requests, s.step.id) {
        case None =>
        case Some(i) =>
          assert RequestOk(o.db, i) && !Returns(o, s, i);
          RequestIsRight(o, s, i);
      }
    }
  }

  // ---- every run ------------------------------------------------------------------------------------------

  ghost predicate SomeFailure(steps: seq<Step>, id: P.PayoutId) {
    exists k :: 0 <= k < |steps| && steps[k].Paying? && steps[k].step.TransferFailed? && steps[k].step.id == id
  }

  ghost predicate WasAsked(steps: seq<Step>, r: Request) {
    || Asking(r.payout, r.user, r.request, r.amount, true, true) in steps
    || Asking(r.payout, r.user, r.request, r.amount, true, false) in steps
  }

  /** Its player asked for it, and each review and each return has the step that caused it. */
  ghost predicate Justified(steps: seq<Step>, r: Request, i: nat) {
    && WasAsked(steps, r)
    && (r.review == Approved ==> Paying(P.ApproveStep(r.payout)) in steps)
    && (r.review == Declined ==> Paying(P.CancelStep(r.payout)) in steps)
    && (r.review == CancelledByPlayer ==> TakingBack(r.user, i) in steps)
    && (r.review in {Declined, CancelledByPlayer} ==> r.release.Some?)
    && (r.release.Some? ==> r.review in {Declined, CancelledByPlayer} || SomeFailure(steps, r.payout))
  }

  lemma {:induction false} StillJustified(steps: seq<Step>, s: Step, r: Request, i: nat)
    requires Justified(steps, r, i)
    ensures Justified(steps + [s], r, i)
  {
    if SomeFailure(steps, r.payout) {
      var k :| 0 <= k < |steps| && steps[k].Paying? && steps[k].step.TransferFailed? && steps[k].step.id == r.payout;
      assert (steps + [s])[k] == steps[k];
    }
  }

  lemma {:induction false} RequestStaysJustified(steps: seq<Step>, o: Office, s: Step, i: nat)
    requires Good(o) && i < |o.db.requests| && Justified(steps, o.db.requests[i], i)
    ensures i < |Act(o, s).db.requests| && Justified(steps + [s], Act(o, s).db.requests[i], i)
  {
    StillJustified(steps, s, o.db.requests[i], i);
    RequestIsRight(o, s, i);
    assert (steps + [s])[|steps|] == s;
  }

  lemma {:induction false} NewIsJustified(steps: seq<Step>, o: Office, s: Step, i: nat)
    requires Good(o) && |o.db.requests| <= i < |Act(o, s).db.requests|
    ensures Justified(steps + [s], Act(o, s).db.requests[i], i)
  {
    assert s in steps + [s];
    match s {
      case Asking(id, user, request, amount, eligible, verified) =>
        AskIsRight(o.db, id, user, request, amount, eligible, verified);
      case TakingBack(_, _) =>
      case Paying(step) => SameRequestCount(o, step);
      case Moving(_) =>
    }
  }

  lemma {:induction false} SameRequestCount(o: Office, s: P.Step)
    ensures |Pay(o, s).db.requests| == |o.db.requests|
  {
  }

  lemma {:induction false} RunIsGood(o: Office, steps: seq<Step>)
    requires Opening(o)
    ensures Good(Run(o, steps))
    decreases |steps|
  {
    if steps == [] {
      P.FreshIsGood(World(o));
    } else {
      RunIsGood(o, steps[..|steps| - 1]);
      ActKeeps(Run(o, steps[..|steps| - 1]), steps[|steps| - 1]);
    }
  }

  lemma {:induction false} RunJustifies(o: Office, steps: seq<Step>, i: nat)
    requires Opening(o) && i < |Run(o, steps).db.requests|
    ensures Justified(steps, Run(o, steps).db.requests[i], i)
    decreases |steps|
  {
    if steps == [] {
    } else {
      var init, s := steps[..|steps| - 1], steps[|steps| - 1];
      var before := Run(o, init);
      RunIsGood(o, init);
      assert init + [s] == steps;
      if i < |before.db.requests| {
        RunJustifies(o, init, i);
        RequestStaysJustified(init, before, s, i);
      } else {
        NewIsJustified(init, before, s, i);
      }
    }
  }

  /**
   * Over every run every withdrawal was asked for by its player, an approved one was
   * approved, a declined one cancelled by an admin, one its player cancelled taken back by
   * that player; money came back only that way or after a reported failure, and only an
   * approved withdrawal is ever completed.
   */
  lemma {:induction false} EveryRequestHasItsReason(o: Office, steps: seq<Step>, i: nat)
    requires Opening(o) && i < |Run(o, steps).db.requests|
    ensures Justified(steps, Run(o, steps).db.requests[i], i)
    ensures Run(o, steps).db.requests[i].money == Completed ==> Run(o, steps).db.requests[i].review == Approved
  {
    RunIsGood(o, steps);
    RunJustifies(o, steps, i);
    assert RequestOk(Run(o, steps).db, i);
  }
}
