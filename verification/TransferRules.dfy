/** What a transfer demands. */
module TransferRules {
  // What each step of the payout protocol may do to a payout, to Stripe's transfers and to
  // the ledger, and that every transfer was approved and checked before it was sent.
  import opened Common
  import opened Payouts

  // ---- one payout ----------------------------------------------------------------------------

  /** A worker may start on it: unsent, over Stripe to a verified recipient, and approved or left by another worker. */
  predicate MayStart(r: Row, now: int) {
    && r.transferId == None && r.overStripe && r.verified && r.amount > 0
    && (r.status == Approved || LeftBehind(r, now))
  }

  /** In process for thirty seconds without a recorded transfer. */
  predicate LeftBehind(r: Row, now: int) {
    r.status == Processing && r.transferId == None && r.processedAt.Some? && r.processedAt.value + 30000 <= now
  }

  predicate WorksOn(w: World, k: nat, phase: Phase) {
    k in w.workers && w.workers[k] == phase
  }

  /** The row of a payout after a step. */
  function RowAfter(w: World, s: Step, id: PayoutId, r: Row): Row {
    match s
    case ApproveStep(i) => if i == id && r.status in {Pending, PendingReview, Failed} then r.(status := Approved) else r
    case CancelStep(i) =>
      if i == id && r.status in {Pending, PendingReview, Approved, Failed} then r.(status := Cancelled) else r
    case Claim(k) =>
      if !WorksOn(w, k, Checked(id)) || r.transferId.Some? then r
      else if r.status == Approved then r.(status := Processing, processedAt := Some(w.now))
      else if LeftBehind(r, w.now) then r.(processedAt := Some(w.now)) else r
    case Record(k) =>
      if k in w.workers && w.workers[k].Got? && w.workers[k].id == id && r.transferId == None &&
         r.status in {Approved, Processing}
      then r.(status := Paid, transferId := Some(w.workers[k].transfer)) else r
    case Release(k) =>
      if WorksOn(w, k, Failing(id)) && r.status == Processing then r.(status := Approved, processedAt := None) else r
    case TransferFailed(i, transfer) =>
      if i == id && r.transferId == Some(transfer) && r.status == Paid then r.(status := Failed, settled := false)
      else r
    case TransferPaid(i, transfer) =>
      if i == id && r.transferId == Some(transfer) && r.status == Paid then r.(settled := true) else r
    case Verification(i, verified) => if i == id then r.(verified := verified) else r
    case _ => r
  }

  lemma {:induction false} RowIsRight(w: World, s: Step, id: PayoutId)
    requires Good(w) && id in w.tables.payouts
    ensures Next(w, s).tables.payouts.Keys == w.tables.payouts.Keys
    ensures Next(w, s).tables.payouts[id] == RowAfter(w, s, id, w.tables.payouts[id])
  {
    assert RowOk(w, id);
    match s {
      case Record(k) => RecordRow(w, k, id);
      case TransferFailed(i, transfer) => if i in w.tables.payouts { assert RowOk(w, i); }
      case _ =>
    }
  }

  lemma {:induction false} RecordRow(w: World, k: nat, id: PayoutId)
    requires Good(w) && id in w.tables.payouts
    ensures Next(w, Record(k)).tables.payouts.Keys == w.tables.payouts.Keys
    ensures Next(w, Record(k)).tables.payouts[id] == RowAfter(w, Record(k), id, w.tables.payouts[id])
  {
    if k in w.workers && w.workers[k].Got? {
      assert WorkerOk(w, w.workers[k]);
      assert RowOk(w, w.workers[k].id);
    }
  }

  /**
   * Recording a transfer answers with the new tables for the first transfer of a payout in
   * process or approved, with the same tables for the very transfer it already has, and
   * with a refusal in every other case.
   */
  lemma {:induction false} RecordingIsRight(w: World, id: PayoutId, transfer: nat)
    requires Good(w)
    ensures var outcome := MarkPaid(w.tables, id, transfer);
      && (outcome.Some? <==>
            && id in w.tables.payouts
            && var r := w.tables.payouts[id];
               (r.transferId == None && r.status in {Approved, Processing}) ||
               (r.transferId == Some(transfer) && r.status == Paid))
      && (outcome.Some? && w.tables.payouts[id].transferId.Some? ==> outcome.value == w.tables)
      && (outcome.Some? && w.tables.payouts[id].transferId.None? ==>
            outcome.value.payouts == w.tables.payouts[id :=
              w.tables.payouts[id].(status := Paid, transferId := Some(transfer))])
  {
    if id in w.tables.payouts { assert RowOk(w, id); }
  }

  // ---- Stripe and the ledger --------------------------------------------------------------------

  /** A transfer goes out when Stripe accepts a claimed payout that has none yet, for its amount; nothing else sends. */
  lemma {:induction false} TransfersAre(w: World, s: Step)
    requires Good(w)
    ensures var sends := s.StripeAccepts? && s.worker in w.workers && w.workers[s.worker].Claimed? &&
        w.workers[s.worker].id in w.tables.payouts && TransfersFor(w, w.workers[s.worker].id) == {};
      Next(w, s).transfers == w.transfers +
        if sends then [Transfer("payout_" + w.workers[s.worker].id, w.tables.payouts[w.workers[s.worker].id].amount)]
        else []
  {
    if s.StripeAccepts? && s.worker in w.workers && w.workers[s.worker].Claimed? {
      var id := w.workers[s.worker].id;
      var found := FindKey(w.transfers, IdempotencyKey(id), |w.transfers|);
      if found.Some? { assert found.value in TransfersFor(w, id); }
    }
  }

  /** A prize paid for the first time leaves one row of its amount; a failed payout has its rows marked. */
  lemma {:induction false} LedgerIs(w: World, s: Step)
    requires Good(w)
    ensures var n := Next(w, s).tables.ledger;
      if s.Record? && s.worker in w.workers && w.workers[s.worker].Got? then
        var id := w.workers[s.worker].id;
        id in w.tables.payouts && n == w.tables.ledger +
          if RowAfter(w, s, id, w.tables.payouts[id]) != w.tables.payouts[id] && !w.tables.payouts[id].withdrawal
          then [Entry("payout:" + id, id, w.tables.payouts[id].amount, false)] else []
      else if s.TransferFailed? && s.id in w.tables.payouts &&
              RowAfter(w, s, s.id, w.tables.payouts[s.id]) != w.tables.payouts[s.id] then
        |n| == |w.tables.ledger| && forall i :: 0 <= i < |n| ==>
          n[i] == if w.tables.ledger[i].payout == s.id then w.tables.ledger[i].(failed := true) else w.tables.ledger[i]
      else n == w.tables.ledger
  {
    match s {
      case Record(k) =>
        if k in w.workers && w.workers[k].Got? {
          assert WorkerOk(w, w.workers[k]);
          assert RowOk(w, w.workers[k].id);
        }
      case TransferFailed(id, _) => if id in w.tables.payouts { assert RowOk(w, id); }
      case _ =>
    }
  }

  // ---- workers --------------------------------------------------------------------------------------

  /** How a worker may stand after a step: a new one has checked the payout, an old one goes on with the same. */
  ghost predicate WorkerMoves(w: World, s: Step, k: nat, phase: Phase) {
    if k !in w.workers then
      && s.Begin? && s.worker == k && !s.frozen && phase == Checked(s.id)
      && s.id in w.tables.payouts && MayStart(w.tables.payouts[s.id], w.now)
    else
      var old_ := w.workers[k];
      || phase == old_
      || (s == Claim(k) && old_.Checked? && phase == Claimed(old_.id))
      || (s.StripeAccepts? && s.worker == k && old_.Claimed? &&
          (phase == Failing(old_.id) || (phase.Got? && phase.id == old_.id && !s.responseLost)))
      || ((s == NoDestination(k) || s == StripeRefuses(k)) && old_.Claimed? && phase == Failing(old_.id))
  }

  lemma {:induction false} WorkersAre(w: World, s: Step, k: nat)
    requires Good(w) && k in Next(w, s).workers
    ensures WorkerMoves(w, s, k, Next(w, s).workers[k])
  {
    if k in w.workers { assert WorkerOk(w, w.workers[k]); }
  }

  // ---- every transfer was approved ----------------------------------------------------------------------

  /** An admin approved the payout at some step. */
  ghost predicate WasApproved(steps: seq<Step>, id: PayoutId) {
    exists i :: 0 <= i < |steps| && steps[i] == ApproveStep(id)
  }

  ghost predicate StartedAt(w: World, steps: seq<Step>, id: PayoutId, i: nat)
    requires i < |steps|
  {
    var before := Run(w, steps[..i]);
    && steps[i].Begin? && steps[i].id == id && !steps[i].frozen
    && id in before.tables.payouts && MayStart(before.tables.payouts[id], before.now)
  }

  /** A worker started on it at a step at which it might. */
  ghost predicate WasStarted(w: World, steps: seq<Step>, id: PayoutId) {
    exists i: nat :: i < |steps| && StartedAt(w, steps, id, i)
  }

  /** Stripe's idempotency key is that of a payout that was approved and started. */
  ghost predicate KeyGrounded(w: World, steps: seq<Step>, key: string) {
    exists id :: key == "payout_" + id && WasApproved(steps, id) && WasStarted(w, steps, id)
  }

  ghost predicate RowsGrounded(steps: seq<Step>, v: World) {
    forall id :: id in v.tables.payouts && v.tables.payouts[id].status in {Approved, Processing, Paid} ==>
      WasApproved(steps, id)
  }

  ghost predicate WorkersGrounded(w: World, steps: seq<Step>, v: World) {
    forall k :: k in v.workers ==> WasApproved(steps, v.workers[k].id) && WasStarted(w, steps, v.workers[k].id)
  }

  ghost predicate TransfersGrounded(w: World, steps: seq<Step>, v: World) {
    forall j :: 0 <= j < |v.transfers| ==> KeyGrounded(w, steps, v.transfers[j].key)
  }

  ghost predicate Grounded(w: World, steps: seq<Step>, v: World) {
    RowsGrounded(steps, v) && WorkersGrounded(w, steps, v) && TransfersGrounded(w, steps, v)
  }

  lemma {:induction false} StillGrounded(w: World, steps: seq<Step>, s: Step, id: PayoutId)
    ensures WasApproved(steps, id) ==> WasApproved(steps + [s], id)
    ensures WasStarted(w, steps, id) ==> WasStarted(w, steps + [s], id)
    ensures s == ApproveStep(id) ==> WasApproved(steps + [s], id)
  {
    var more := steps + [s];
    if WasApproved(steps, id) {
      var i :| 0 <= i < |steps| && steps[i] == ApproveStep(id);
      assert more[i] == ApproveStep(id);
    }
    if WasStarted(w, steps, id) {
      var i: nat :| i < |steps| && StartedAt(w, steps, id, i);
      assert more[..i] == steps[..i];
      assert StartedAt(w, more, id, i);
    }
    if s == ApproveStep(id) { assert more[|steps|] == s; }
  }

  lemma {:induction false} NextIsGrounded(w: World, steps: seq<Step>, s: Step)
    requires Good(Run(w, steps)) && Grounded(w, steps, Run(w, steps))
    ensures Grounded(w, steps + [s], Next(Run(w, steps), s))
  {
    NextRowsGrounded(w, steps, s);
    NextTransfersGrounded(w, steps, s);
    forall k | k in Next(Run(w, steps), s).workers
      ensures WasApproved(steps + [s], Next(Run(w, steps), s).workers[k].id)
      ensures WasStarted(w, steps + [s], Next(Run(w, steps), s).workers[k].id)
    {
      WorkerIsGrounded(w, steps, s, k);
    }
  }

  lemma {:induction false} NextRowsGrounded(w: World, steps: seq<Step>, s: Step)
    requires Good(Run(w, steps)) && Grounded(w, steps, Run(w, steps))
    ensures RowsGrounded(steps + [s], Next(Run(w, steps), s))
  {
    var v, n := Run(w, steps), Next(Run(w, steps), s);
    forall id | id in n.tables.payouts && n.tables.payouts[id].status in {Approved, Processing, Paid}
      ensures WasApproved(steps + [s], id)
    {
      RowsStay(v, s, id);
      RowIsRight(v, s, id);
      StillGrounded(w, steps, s, id);
    }
  }

  lemma {:induction false} NextTransfersGrounded(w: World, steps: seq<Step>, s: Step)
    requires Good(Run(w, steps)) && Grounded(w, steps, Run(w, steps))
    ensures TransfersGrounded(w, steps + [s], Next(Run(w, steps), s))
  {
    var v, n := Run(w, steps), Next(Run(w, steps), s);
    TransfersAre(v, s);
    forall j | 0 <= j < |n.transfers| ensures KeyGrounded(w, steps + [s], n.transfers[j].key) {
      var id: PayoutId;
      if j < |v.transfers| {
        assert KeyGrounded(w, steps, v.transfers[j].key);
        id :| v.transfers[j].key == "payout_" + id && WasApproved(steps, id) && WasStarted(w, steps, id);
      } else {
        id := v.workers[s.worker].id;
      }
      StillGrounded(w, steps, s, id);
    }
  }

  lemma {:induction false} RowsStay(w: World, s: Step, id: PayoutId)
    ensures id in Next(w, s).tables.payouts <==> id in w.tables.payouts
  {
  }

  lemma {:induction false} WorkerIsGrounded(w: World, steps: seq<Step>, s: Step, k: nat)
    requires Good(Run(w, steps)) && Grounded(w, steps, Run(w, steps)) && k in Next(Run(w, steps), s).workers
    ensures var id := Next(Run(w, steps), s).workers[k].id;
      WasApproved(steps + [s], id) && WasStarted(w, steps + [s], id)
  {
    var v, more := Run(w, steps), steps + [s];
    var id := Next(v, s).workers[k].id;
    WorkersAre(v, s, k);
    StillGrounded(w, steps, s, id);
    if k !in v.workers {
      assert more[..|steps|] == steps && more[|steps|] == s;
      assert StartedAt(w, more, id, |steps|);
    }
  }

  /**
   * Under any interleaving every transfer at Stripe is of a payout that an admin approved
   * and that a worker, with payouts not frozen, found unsent, verified and worth something.
   */
  lemma {:induction false} EveryTransferWasApproved(w: World, steps: seq<Step>)
    requires Fresh(w)
    ensures Grounded(w, steps, Run(w, steps))
    decreases |steps|
  {
    if steps == [] {
    } else {
      var init := steps[..|steps| - 1];
      FreshIsGood(w);
      RunKeepsGood(w, init);
      EveryTransferWasApproved(w, init);
      NextIsGrounded(w, init, steps[|steps| - 1]);
      assert init + [steps[|steps| - 1]] == steps;
    }
  }
}
