/** Paying out over Stripe. */
module Payouts {
  // Concurrent workers, lost responses, crashes and the recovery of stale work, with
  // an idempotency key per payout.
  import opened Common

  type PayoutId = string

  datatype Status = Pending | PendingReview | Approved | Processing | Paid | Failed | Cancelled

  /** `transferId` is the position of the recorded transfer at Stripe. */
  datatype Row = Row(
    status: Status,
    amount: nat,
    overStripe: bool,
    verified: bool,
    withdrawal: bool,
    transferId: Option<nat>,
    processedAt: Option<int>,
    settled: bool)

  /** A ledger row written for a payout; `failed` is its status being FAILED. */
  datatype Entry = Entry(reference: string, payout: PayoutId, amount: nat, failed: bool)

  datatype Tables = Tables(payouts: map<PayoutId, Row>, ledger: seq<Entry>)

  const RECOVERY_MS := 30000

  // ---- the lifecycle table -----------------------------------------------------------

  function AllowedTransitions(from: Status): set<Status> {
    match from
    case Pending => {PendingReview, Approved, Cancelled}
    case PendingReview => {Approved, Cancelled}
    case Approved => {Processing, Cancelled}
    case Processing => {Paid, Failed}
    case Paid => {}
    case Failed => {PendingReview, Approved, Cancelled}
    case Cancelled => {}
  }

  const APPROVABLE_FROM: set<Status> := {Pending, PendingReview, Failed}
  const CANCELLABLE_FROM: set<Status> := {Pending, PendingReview, Approved, Failed}

  /** The two guard lists are exactly what the table allows. */
  lemma {:induction false} GuardsMatchTable(from: Status)
    ensures from in APPROVABLE_FROM <==> Approved in AllowedTransitions(from)
    ensures from in CANCELLABLE_FROM <==> Cancelled in AllowedTransitions(from)
  {
  }

  // ---- conditional updates of one row -------------------------------------------------

  /** Each returns the new row, or nothing when the guard in the WHERE clause does not hold. */
  function ApproveRow(r: Row): Option<Row> {
    if r.status in APPROVABLE_FROM then Some(r.(status := Approved)) else None
  }

  function CancelRow(r: Row): Option<Row> {
    if r.status in CANCELLABLE_FROM then Some(r.(status := Cancelled)) else None
  }

  predicate Stale(r: Row, now: int) {
    r.status == Processing && r.transferId == None && r.processedAt.Some? && r.processedAt.value <= now - RECOVERY_MS
  }

  /** `claimForProcessing`: APPROVED work is claimed, stale PROCESSING work is resumed. */
  function ClaimRow(r: Row, now: int): Option<Row> {
    if r.status == Approved && r.transferId == None then Some(r.(status := Processing, processedAt := Some(now)))
    else if Stale(r, now) then Some(r.(processedAt := Some(now)))
    else None
  }

  function ReleaseRow(r: Row): Option<Row> {
    if r.status == Processing then Some(r.(status := Approved, processedAt := None)) else None
  }

  function FailRow(r: Row): Option<Row> {
    if r.status == Processing || r.status == Paid then Some(r.(status := Failed, settled := false)) else None
  }

  function SettleRow(r: Row): Option<Row> {
    if r.status == Paid && !r.settled then Some(r.(settled := true)) else None
  }

  /** `assertProcessable`, with recovery of stale work allowed. */
  predicate Processable(r: Row, now: int) {
    && r.transferId == None && r.status != Paid && r.overStripe
    && (r.status == Approved || Stale(r, now))
    && r.verified && r.amount > 0
  }

  // ---- markPaid ------------------------------------------------------------------------

  function Reference(id: PayoutId): string {
    "payout:" + id
  }

  function IdempotencyKey(id: PayoutId): string {
    "payout_" + id
  }

  predicate HasEntry(ledger: seq<Entry>, reference: string) {
    exists i :: 0 <= i < |ledger| && ledger[i].reference == reference
  }

  /** Status and ledger row together, or an error that leaves both alone. */
  function MarkPaid(t: Tables, id: PayoutId, transfer: nat): Option<Tables> {
    if id !in t.payouts then None
    else
      var r := t.payouts[id];
      if (r.status == Processing || r.status == Approved) && r.transferId == None then
        var paid := t.payouts[id := r.(status := Paid, transferId := Some(transfer))];
        if r.withdrawal then Some(t.(payouts := paid))
        else if HasEntry(t.ledger, Reference(id)) then None
        else Some(Tables(paid, t.ledger + [Entry(Reference(id), id, r.amount, false)]))
      else if r.status == Paid && r.transferId == Some(transfer) && (r.withdrawal || HasEntry(t.ledger, Reference(id)))
        then Some(t)
      else None
  }

  function FailEntries(ledger: seq<Entry>, id: PayoutId): seq<Entry> {
    seq(|ledger|,
      i requires 0 <= i < |ledger| => if ledger[i].payout == id then ledger[i].(failed := true) else ledger[i])
  }

  // ---- Stripe -----------------------------------------------------------------------------

  datatype Transfer = Transfer(key: string, amount: nat)

  function FindKey(transfers: seq<Transfer>, key: string, n: nat): (found: Option<nat>)
    requires n <= |transfers|
    ensures found.Some? ==> found.value < n && transfers[found.value].key == key
    ensures found.None? ==> forall i :: 0 <= i < n ==> transfers[i].key != key
  {
    if n == 0 then None
    else if transfers[n - 1].key == key then Some(n - 1)
    else FindKey(transfers, key, n - 1)
  }

  /** A known idempotency key returns the original transfer. */
  function Send(transfers: seq<Transfer>, key: string, amount: nat): (seq<Transfer>, nat) {
    match FindKey(transfers, key, |transfers|)
    case Some(i) => (transfers, i)
    case None => (transfers + [Transfer(key, amount)], |transfers|)
  }

  // ---- the protocol ---------------------------------------------------------------------------

  /** Where a `process` call is between two of its steps. */
  datatype Phase = Checked(id: PayoutId) | Claimed(id: PayoutId) | Got(id: PayoutId, transfer: nat) |
      Failing(id: PayoutId)

  datatype World = World(tables: Tables, transfers: seq<Transfer>, workers: map<nat, Phase>, now: int)

  datatype Step =
    | Begin(worker: nat, id: PayoutId, frozen: bool)
    | Claim(worker: nat)
    | NoDestination(worker: nat)
    | StripeAccepts(worker: nat, responseLost: bool)
    | StripeRefuses(worker: nat)
    | Record(worker: nat)
    | Release(worker: nat)
    | Crash(worker: nat)
    | ApproveStep(id: PayoutId)
    | CancelStep(id: PayoutId)
    | TransferFailed(id: PayoutId, transfer: nat)
    | TransferPaid(id: PayoutId, transfer: nat)
    | Verification(id: PayoutId, verified: bool)
    | Wait(ms: nat)

  function Updated(t: Tables, id: PayoutId, row: Option<Row>): Tables {
    if id in t.payouts && row.Some? then t.(payouts := t.payouts[id := row.value]) else t
  }

  /** `updateMany` on one id with a guarded change. */
  function Change(t: Tables, id: PayoutId, change: Row -> Option<Row>): Tables {
    if id in t.payouts then Updated(t, id, change(t.payouts[id])) else t
  }

  function FailPayout(t: Tables, id: PayoutId): Tables {
    if id in t.payouts && FailRow(t.payouts[id]).Some?
    then Tables(t.payouts[id := FailRow(t.payouts[id]).value], FailEntries(t.ledger, id))
    else t
  }

  predicate At(w: World, worker: nat, phase: Phase) {
    worker in w.workers && w.workers[worker] == phase
  }

  function Quit(w: World, worker: nat): World {
    w.(workers := w.workers - {worker})
  }

  function Move(w: World, worker: nat, phase: Phase): World {
    w.(workers := w.workers[worker := phase])
  }

  predicate Recorded(t: Tables, id: PayoutId, transfer: nat) {
    id in t.payouts && t.payouts[id].transferId == Some(transfer)
  }

  function Next(w: World, s: Step): World {
    match s
    case Begin(k, id, frozen) =>
      if k !in w.workers && !frozen && id in w.tables.payouts && Processable(w.tables.payouts[id], w.now)
        then Move(w, k, Checked(id)) else w
    case Claim(k) =>
      if k in w.workers && w.workers[k].Checked? then
        var id := w.workers[k].id;
        if id in w.tables.payouts && ClaimRow(w.tables.payouts[id], w.now).Some?
        then Move(w.(tables := Updated(w.tables, id, ClaimRow(w.tables.payouts[id], w.now))), k, Claimed(id))
        else Quit(w, k)
      else w
    case NoDestination(k) => if k in w.workers && w.workers[k].Claimed? then Move(w, k, Failing(w.workers[k].id)) else w
    case StripeAccepts(k, lost) =>
      if k in w.workers && w.workers[k].Claimed? && w.workers[k].id in w.tables.payouts then
        var id := w.workers[k].id;
        var (transfers, i) := Send(w.transfers, IdempotencyKey(id), w.tables.payouts[id].amount);
        Move(w.(transfers := transfers), k, if lost then Failing(id) else Got(id, i))
      else w
    case StripeRefuses(k) => if k in w.workers && w.workers[k].Claimed? then Move(w, k, Failing(w.workers[k].id)) else w
    case Record(k) =>
      if k in w.workers && w.workers[k].Got? then
        match MarkPaid(w.tables, w.workers[k].id, w.workers[k].transfer)
        case Some(t) => Quit(w.(tables := t), k)
        case None => Quit(w, k)
      else w
    case Release(k) =>
      if k in w.workers && w.workers[k].Failing?
        then Quit(w.(tables := Change(w.tables, w.workers[k].id, ReleaseRow)), k) else w
    case Crash(k) => Quit(w, k)
    case ApproveStep(id) => w.(tables := Change(w.tables, id, ApproveRow))
    case CancelStep(id) => w.(tables := Change(w.tables, id, CancelRow))
    case TransferFailed(id, i) => if Recorded(w.tables, id, i) then w.(tables := FailPayout(w.tables, id)) else w
    case TransferPaid(id, i) => if Recorded(w.tables, id, i) then w.(tables := Change(w.tables, id, SettleRow)) else w
    case Verification(id, verified) =>
      if id in w.tables.payouts
        then w.(tables := w.tables.(payouts := w.tables.payouts[id := w.tables.payouts[id].(verified := verified)]))
        else w
    case Wait(ms) => w.(now := w.now + ms)
  }

  // ---- what always holds ---------------------------------------------------------------------

  ghost predicate OneTransferPerKey(transfers: seq<Transfer>) {
    forall i, j :: 0 <= i < j < |transfers| ==> transfers[i].key != transfers[j].key
  }

  /** Transfer `i` is the one of this payout, for its amount. */
  predicate TransferOf(w: World, id: PayoutId, i: nat) {
    id in w.tables.payouts && i < |w.transfers| &&
      w.transfers[i] == Transfer(IdempotencyKey(id), w.tables.payouts[id].amount)
  }

  predicate HasTransfer(w: World, id: PayoutId) {
    exists i: nat :: i < |w.transfers| && TransferOf(w, id, i)
  }

  ghost predicate RowOk(w: World, id: PayoutId)
    requires id in w.tables.payouts
  {
    var r := w.tables.payouts[id];
    && (r.transferId.Some? ==> TransferOf(w, id, r.transferId.value))
    && (r.status == Paid ==> r.transferId.Some?)
    && (r.status == Processing ==> r.transferId == None)
    && (r.transferId.Some? && !r.withdrawal <==> HasEntry(w.tables.ledger, Reference(id)))
  }

  ghost predicate LedgerOk(t: Tables) {
    && (forall i, j :: 0 <= i < j < |t.ledger| ==> t.ledger[i].reference != t.ledger[j].reference)
    && (forall i :: 0 <= i < |t.ledger| ==>
          t.ledger[i].payout in t.payouts && t.ledger[i].reference == Reference(t.ledger[i].payout)
          && t.ledger[i].amount == t.payouts[t.ledger[i].payout].amount)
  }

  ghost predicate WorkerOk(w: World, phase: Phase) {
    phase.id in w.tables.payouts && (phase.Got? ==> TransferOf(w, phase.id, phase.transfer))
  }

  ghost predicate Known(w: World, i: nat)
    requires i < |w.transfers|
  {
    exists id :: id in w.tables.payouts && TransferOf(w, id, i)
  }

  ghost predicate Good(w: World) {
    && OneTransferPerKey(w.transfers)
    && (forall i: nat {:trigger Known(w, i)} :: i < |w.transfers| ==> Known(w, i))
    && (forall id {:trigger RowOk(w, id)} :: id in w.tables.payouts ==> RowOk(w, id))
    && LedgerOk(w.tables)
    && (forall k {:trigger WorkerOk(w, w.workers[k])} :: k in w.workers ==> WorkerOk(w, w.workers[k]))
  }

  lemma {:induction false} KeysTellPayoutsApart(a: PayoutId, b: PayoutId)
    ensures IdempotencyKey(a) == IdempotencyKey(b) ==> a == b
    ensures Reference(a) == Reference(b) ==> a == b
  {
    assert IdempotencyKey(a)[7..] == a && IdempotencyKey(b)[7..] == b;
    assert Reference(a)[7..] == a && Reference(b)[7..] == b;
  }

  // ---- each kind of change keeps it -----------------------------------------------------------

  predicate SameRecord(r: Row, q: Row) {
    && q.amount == r.amount && q.withdrawal == r.withdrawal && q.transferId == r.transferId
    && (q.status == Paid ==> r.status == Paid)
    && (q.status == Processing ==> r.status == Processing || r.transferId == None)
  }

  /** Rows changed, but neither amounts nor what is recorded about transfers. */
  ghost predicate SameRecords(t: Tables, u: Tables) {
    && u.payouts.Keys == t.payouts.Keys && |u.ledger| == |t.ledger|
    && (forall id :: id in t.payouts ==> SameRecord(t.payouts[id], u.payouts[id]))
    && (forall i :: 0 <= i < |t.ledger| ==> u.ledger[i] == t.ledger[i].(failed := u.ledger[i].failed))
  }

  lemma {:induction false} RecordsKept(w: World, v: World)
    requires Good(w) && SameRecords(w.tables, v.tables) && v.transfers == w.transfers
    requires forall k :: k in v.workers ==> WorkerOk(w, v.workers[k])
    ensures Good(v)
  {
    forall i: nat | i < |v.transfers| ensures Known(v, i) {
      assert Known(w, i);
      var id :| id in w.tables.payouts && TransferOf(w, id, i);
      assert TransferOf(v, id, i);
    }
    forall id | id in v.tables.payouts ensures RowOk(v, id) {
      assert RowOk(w, id);
      SameEntries(w.tables.ledger, v.tables.ledger, Reference(id));
    }
    forall k | k in v.workers ensures WorkerOk(v, v.workers[k]) { assert WorkerOk(w, v.workers[k]); }
  }

  lemma {:induction false} SameEntries(a: seq<Entry>, b: seq<Entry>, reference: string)
    requires |a| == |b| && forall i :: 0 <= i < |a| ==> b[i].reference == a[i].reference
    ensures HasEntry(a, reference) <==> HasEntry(b, reference)
  {
    if HasEntry(a, reference) {
      var i :| 0 <= i < |a| && a[i].reference == reference;
      assert b[i].reference == reference;
    }
    if HasEntry(b, reference) {
      var i :| 0 <= i < |b| && b[i].reference == reference;
      assert a[i].reference == reference;
    }
  }

  /** Sending creates at most one transfer for the payout and disturbs no other. */
  lemma {:induction false} SendingKeepsGood(w: World, id: PayoutId, k: nat, phase: Phase, v: World)
    requires Good(w) && id in w.tables.payouts
    requires var (transfers, i) := Send(w.transfers, IdempotencyKey(id), w.tables.payouts[id].amount);
      && v == w.(transfers := transfers, workers := w.workers[k := phase]) && phase in {Failing(id), Got(id, i)}
    ensures Good(v) && HasTransfer(v, id)
  {
    var (transfers, i) := Send(w.transfers, IdempotencyKey(id), w.tables.payouts[id].amount);
    assert TransferOf(v, id, i) by {
      if i < |w.transfers| {
        assert Known(w, i);
        var other :| other in w.tables.payouts && TransferOf(w, other, i);
        KeysTellPayoutsApart(id, other);
      }
    }
    forall j: nat | j < |v.transfers| ensures Known(v, j) {
      if j < |w.transfers| {
        assert Known(w, j);
        var other :| other in w.tables.payouts && TransferOf(w, other, j);
        assert TransferOf(v, other, j);
      } else {
        assert TransferOf(v, id, j);
      }
    }
    forall other | other in v.tables.payouts ensures RowOk(v, other) { assert RowOk(w, other); }
    forall j | j in v.workers ensures WorkerOk(v, v.workers[j]) {
      if j != k { assert WorkerOk(w, w.workers[j]); }
    }
  }

  /** Recording writes status, transfer and ledger row together; the reference is never taken. */
  lemma {:induction false} RecordingKeepsGood(w: World, id: PayoutId, i: nat, v: World)
    requires Good(w) && TransferOf(w, id, i) && MarkPaid(w.tables, id, i).Some?
    requires v == w.(tables := MarkPaid(w.tables, id, i).value, workers := v.workers)
    requires forall k :: k in v.workers ==> k in w.workers && v.workers[k] == w.workers[k]
    ensures Good(v)
  {
    assert RowOk(w, id);
    forall j: nat | j < |v.transfers| ensures Known(v, j) {
      assert Known(w, j);
      var other :| other in w.tables.payouts && TransferOf(w, other, j);
      assert TransferOf(v, other, j);
    }
    forall other | other in v.tables.payouts ensures RowOk(v, other) {
      assert RowOk(w, other);
      KeysTellPayoutsApart(id, other);
      EntryAdded(w.tables.ledger, v.tables.ledger, id, other);
    }
    forall k | k in v.workers ensures WorkerOk(v, v.workers[k]) { assert WorkerOk(w, w.workers[k]); }
  }

  lemma {:induction false} EntryAdded(a: seq<Entry>, b: seq<Entry>, id: PayoutId, other: PayoutId)
    requires b == a || (|b| == |a| + 1 && b[..|a|] == a && b[|a|].reference == Reference(id))
    ensures b != a ==>
      (HasEntry(b, Reference(other)) <==> HasEntry(a, Reference(other)) || Reference(other) == Reference(id))
  {
    if b != a {
      assert forall i :: 0 <= i < |a| ==> b[i] == a[i];
      if HasEntry(a, Reference(other)) {
        var i :| 0 <= i < |a| && a[i].reference == Reference(other);
        assert b[i].reference == Reference(other);
      }
      if HasEntry(b, Reference(other)) {
        var i :| 0 <= i < |b| && b[i].reference == Reference(other);
        assert i < |a| ==> a[i].reference == Reference(other);
      }
    }
  }

  /** No guarded update of a row touches its amount or its transfer, or claims a row with a recorded transfer. */
  lemma {:induction false} RowChanges(r: Row, now: int)
    ensures ApproveRow(r).Some? ==> SameRecord(r, ApproveRow(r).value)
    ensures CancelRow(r).Some? ==> SameRecord(r, CancelRow(r).value)
    ensures ClaimRow(r, now).Some? ==> SameRecord(r, ClaimRow(r, now).value)
    ensures ReleaseRow(r).Some? ==> SameRecord(r, ReleaseRow(r).value)
    ensures FailRow(r).Some? ==> SameRecord(r, FailRow(r).value)
    ensures SettleRow(r).Some? ==> SameRecord(r, SettleRow(r).value)
  {
  }

  lemma {:induction false} OneRowChanged(t: Tables, id: PayoutId, q: Row, ledger: seq<Entry>)
    requires id in t.payouts && SameRecord(t.payouts[id], q)
    requires ledger == t.ledger || ledger == FailEntries(t.ledger, id)
    ensures SameRecords(t, Tables(t.payouts[id := q], ledger))
  {
  }

  lemma {:induction false} UpdateKeepsGood(w: World, id: PayoutId, row: Option<Row>, v: World)
    requires Good(w) && id in w.tables.payouts && (row.Some? ==> SameRecord(w.tables.payouts[id], row.value))
    requires v == w.(tables := Updated(w.tables, id, row), workers := v.workers, now := v.now)
    requires forall k :: k in v.workers ==> WorkerOk(w, v.workers[k])
    ensures Good(v)
  {
    if row.Some? { OneRowChanged(w.tables, id, row.value, w.tables.ledger); }
    RecordsKept(w, v);
  }

  lemma {:induction false} FailingKeepsGood(w: World, id: PayoutId)
    requires Good(w)
    ensures Good(w.(tables := FailPayout(w.tables, id)))
  {
    var v := w.(tables := FailPayout(w.tables, id));
    if v != w {
      RowChanges(w.tables.payouts[id], 0);
      OneRowChanged(w.tables, id, FailRow(w.tables.payouts[id]).value, FailEntries(w.tables.ledger, id));
    }
    forall k | k in v.workers ensures WorkerOk(w, v.workers[k]) {}
    RecordsKept(w, v);
  }

  lemma {:induction false} WorkersKept(w: World, v: World)
    requires Good(w) && v.tables == w.tables && v.transfers == w.transfers
    requires forall k :: k in v.workers ==> WorkerOk(w, v.workers[k])
    ensures Good(v)
  {
    RecordsKept(w, v);
  }

  /** One worker moved to a phase that agrees with the tables, or left. */
  lemma {:induction false} OneWorkerMoved(w: World, k: nat, phase: Phase)
    requires Good(w) && WorkerOk(w, phase)
    ensures forall j :: j in Move(w, k, phase).workers ==> WorkerOk(w, Move(w, k, phase).workers[j])
    ensures forall j :: j in Quit(w, k).workers ==> WorkerOk(w, Quit(w, k).workers[j])
  {
    forall j | j in Move(w, k, phase).workers ensures WorkerOk(w, Move(w, k, phase).workers[j]) {
      if j != k { assert WorkerOk(w, w.workers[j]); }
    }
    forall j | j in Quit(w, k).workers ensures WorkerOk(w, Quit(w, k).workers[j]) { assert WorkerOk(w, w.workers[j]); }
  }

  lemma {:induction false} WorkerStepsKeepGood(w: World, s: Step)
    requires Good(w) && (s.Begin? || s.Claim? || s.NoDestination? || s.StripeRefuses? || s.Crash? || s.Release?)
    ensures Good(Next(w, s))
  {
    var v := Next(w, s);
    if v != w {
      if s.Begin? {
        OneWorkerMoved(w, s.worker, Checked(s.id));
        WorkersKept(w, v);
      } else {
        var k := s.worker;
        if k in w.workers {
          assert WorkerOk(w, w.workers[k]);
          var id := w.workers[k].id;
          OneWorkerMoved(w, k, Claimed(id));
          OneWorkerMoved(w, k, Failing(id));
          RowChanges(w.tables.payouts[id], w.now);
          if s.Claim? && ClaimRow(w.tables.payouts[id], w.now).Some? {
            UpdateKeepsGood(w, id, ClaimRow(w.tables.payouts[id], w.now), v);
          } else if s.Release? {
            UpdateKeepsGood(w, id, ReleaseRow(w.tables.payouts[id]), v);
          } else {
            WorkersKept(w, v);
          }
        }
      }
    }
  }

  lemma {:induction false} StripeStepsKeepGood(w: World, k: nat, lost: bool)
    requires Good(w)
    ensures Good(Next(w, StripeAccepts(k, lost)))
  {
    if k in w.workers && w.workers[k].Claimed? {
      assert WorkerOk(w, w.workers[k]);
      var id := w.workers[k].id;
      var (transfers, i) := Send(w.transfers, IdempotencyKey(id), w.tables.payouts[id].amount);
      SendingKeepsGood(w, id, k, if lost then Failing(id) else Got(id, i), Next(w, StripeAccepts(k, lost)));
    }
  }

  lemma {:induction false} RecordStepKeepsGood(w: World, k: nat)
    requires Good(w)
    ensures Good(Next(w, Record(k)))
  {
    if k in w.workers && w.workers[k].Got? {
      assert WorkerOk(w, w.workers[k]);
      var id, i := w.workers[k].id, w.workers[k].transfer;
      if MarkPaid(w.tables, id, i).Some? {
        RecordingKeepsGood(w, id, i, Next(w, Record(k)));
      } else {
        OneWorkerMoved(w, k, Claimed(id));
        WorkersKept(w, Next(w, Record(k)));
      }
    }
  }

  lemma {:induction false} RowStepsKeepGood(w: World, id: PayoutId, row: Option<Row>)
    requires Good(w) && id in w.tables.payouts && (row.Some? ==> SameRecord(w.tables.payouts[id], row.value))
    ensures Good(w.(tables := Updated(w.tables, id, row)))
  {
    forall k | k in w.workers ensures WorkerOk(w, w.workers[k]) {}
    UpdateKeepsGood(w, id, row, w.(tables := Updated(w.tables, id, row)));
  }

  lemma {:induction false} TableStepsKeepGood(w: World, s: Step)
    requires Good(w) && (s.ApproveStep? || s.CancelStep? || s.TransferPaid? || s.Verification?)
    ensures Good(Next(w, s))
  {
    if s.id in w.tables.payouts {
      var r := w.tables.payouts[s.id];
      RowChanges(r, w.now);
      match s {
        case ApproveStep(id) => RowStepsKeepGood(w, id, ApproveRow(r));
        case CancelStep(id) => RowStepsKeepGood(w, id, CancelRow(r));
        case TransferPaid(id, _) => RowStepsKeepGood(w, id, SettleRow(r));
        case Verification(id, verified) => RowStepsKeepGood(w, id, Some(r.(verified := verified)));
      }
    }
  }

  lemma {:induction false} NextKeepsGood(w: World, s: Step)
    requires Good(w)
    ensures Good(Next(w, s))
  {
    match s {
      case StripeAccepts(k, lost) => StripeStepsKeepGood(w, k, lost);
      case Record(k) => RecordStepKeepsGood(w, k);
      case TransferFailed(id, i) => FailingKeepsGood(w, id);
      case ApproveStep(_) => TableStepsKeepGood(w, s);
      case CancelStep(_) => TableStepsKeepGood(w, s);
      case TransferPaid(_, _) => TableStepsKeepGood(w, s);
      case Verification(_, _) => TableStepsKeepGood(w, s);
      case Wait(ms) =>
        forall k | k in w.workers ensures WorkerOk(w, w.workers[k]) {}
        WorkersKept(w, Next(w, s));
      case _ => WorkerStepsKeepGood(w, s);
    }
  }

  // ---- every interleaving -----------------------------------------------------------------------

  /** Payouts as they are created: nothing sent, nothing recorded, nobody working. */
  ghost predicate Fresh(w: World) {
    && w.transfers == [] && w.workers == map[] && w.tables.ledger == []
    && forall id :: id in w.tables.payouts ==>
       w.tables.payouts[id].transferId == None && w.tables.payouts[id].status in {Pending, PendingReview}
  }

  function Run(w: World, steps: seq<Step>): World {
    if steps == [] then w else Next(Run(w, steps[..|steps| - 1]), steps[|steps| - 1])
  }

  lemma {:induction false} FreshIsGood(w: World)
    requires Fresh(w)
    ensures Good(w)
  {
    forall id | id in w.tables.payouts ensures RowOk(w, id) {}
  }

  lemma {:induction false} RunKeepsGood(w: World, steps: seq<Step>)
    requires Good(w)
    ensures Good(Run(w, steps))
    decreases |steps|
  {
    if steps != [] {
      RunKeepsGood(w, steps[..|steps| - 1]);
      NextKeepsGood(Run(w, steps[..|steps| - 1]), steps[|steps| - 1]);
    }
  }

  /**
   * Under any interleaving of workers, refusals, lost responses, crashes, stale
   * recovery and admin actions: a payout has at most one transfer and at most one
   * `payout:` ledger row, both for its amount; and a PAID payout has exactly one
   * transfer and, unless it pays out a reserved withdrawal, exactly one row.
   */
  lemma {:induction false} EveryInterleaving(w: World, steps: seq<Step>, id: PayoutId)
    requires Fresh(w) && id in w.tables.payouts
    ensures var v := Run(w, steps);
      && |TransfersFor(v, id)| <= 1
      && |EntriesFor(v, id)| <= 1
      && id in v.tables.payouts && v.tables.payouts[id].amount == w.tables.payouts[id].amount
      && (v.tables.payouts[id].status == Paid ==>
            && v.tables.payouts[id].transferId.Some? && TransfersFor(v, id) == {v.tables.payouts[id].transferId.value}
            && TransferOf(v, id, v.tables.payouts[id].transferId.value)
            && (!v.tables.payouts[id].withdrawal ==> |EntriesFor(v, id)| == 1))
  {
    FreshIsGood(w);
    RunKeepsGood(w, steps);
    AmountsNeverChange(w, steps, id);
    PaidMeansSent(Run(w, steps), id);
  }

  lemma {:induction false} PaidMeansSent(v: World, id: PayoutId)
    requires Good(v) && id in v.tables.payouts
    ensures |TransfersFor(v, id)| <= 1 && |EntriesFor(v, id)| <= 1
    ensures v.tables.payouts[id].status == Paid ==>
      && v.tables.payouts[id].transferId.Some? && TransfersFor(v, id) == {v.tables.payouts[id].transferId.value}
      && TransferOf(v, id, v.tables.payouts[id].transferId.value)
      && (!v.tables.payouts[id].withdrawal ==> |EntriesFor(v, id)| == 1)
  {
    assert RowOk(v, id);
    AtMostOneEach(v, id);
    if HasEntry(v.tables.ledger, Reference(id)) {
      var i :| 0 <= i < |v.tables.ledger| && v.tables.ledger[i].reference == Reference(id);
      assert EntriesFor(v, id) == {i};
    }
  }

  ghost function TransfersFor(w: World, id: PayoutId): set<int> {
    set i | 0 <= i < |w.transfers| && w.transfers[i].key == IdempotencyKey(id)
  }

  ghost function EntriesFor(w: World, id: PayoutId): set<int> {
    set i | 0 <= i < |w.tables.ledger| && w.tables.ledger[i].reference == Reference(id)
  }

  lemma {:induction false} AtMostOneEach(w: World, id: PayoutId)
    requires Good(w)
    ensures |TransfersFor(w, id)| <= 1 && |EntriesFor(w, id)| <= 1
    ensures forall i :: i in TransfersFor(w, id) ==> TransfersFor(w, id) == {i}
  {
    if i :| i in TransfersFor(w, id) { assert TransfersFor(w, id) == {i}; } else { assert TransfersFor(w, id) == {}; }
    if i :| i in EntriesFor(w, id) { assert EntriesFor(w, id) == {i}; } else { assert EntriesFor(w, id) == {}; }
  }

  /** No two payouts ever record the same transfer. */
  lemma {:induction false} TransfersAreNotShared(w: World, a: PayoutId, b: PayoutId)
    requires Good(w) && a in w.tables.payouts && b in w.tables.payouts
    requires w.tables.payouts[a].transferId.Some? && w.tables.payouts[a].transferId == w.tables.payouts[b].transferId
    ensures a == b
  {
    assert RowOk(w, a) && RowOk(w, b);
    KeysTellPayoutsApart(a, b);
  }

  lemma {:induction false} AmountsNeverChange(w: World, steps: seq<Step>, id: PayoutId)
    requires id in w.tables.payouts
    ensures id in Run(w, steps).tables.payouts && Run(w, steps).tables.payouts[id].amount == w.tables.payouts[id].amount
    decreases |steps|
  {
    if steps != [] {
      AmountsNeverChange(w, steps[..|steps| - 1], id);
      AmountKept(Run(w, steps[..|steps| - 1]), steps[|steps| - 1], id);
    }
  }

  lemma {:induction false} AmountKept(w: World, s: Step, id: PayoutId)
    requires id in w.tables.payouts
    ensures id in Next(w, s).tables.payouts && Next(w, s).tables.payouts[id].amount == w.tables.payouts[id].amount
  {
  }

  // ---- what the lifecycle really is ----------------------------------------------------------------

  /** The status changes that steps make. */
  predicate Happens(from: Status, to: Status) {
    || (to == Approved && from in {Pending, PendingReview, Failed, Processing})
    || (to == Cancelled && from in CANCELLABLE_FROM)
    || (to == Processing && from == Approved)
    || (to == Paid && from in {Processing, Approved})
    || (to == Failed && from == Paid)
  }

  /**
   * Which status changes a step can make. PAID is not final (a failed
   * transfer moves it to FAILED), work can go back from PROCESSING to APPROVED,
   * a released payout can still be marked PAID, and PROCESSING never becomes
   * FAILED; CANCELLED is final.
   */
  lemma {:induction false} StatusChanges(w: World, s: Step, id: PayoutId)
    requires Good(w) && id in w.tables.payouts && id in Next(w, s).tables.payouts
    ensures var from, to := w.tables.payouts[id].status, Next(w, s).tables.payouts[id].status;
      from == to || Happens(from, to)
    ensures w.tables.payouts[id].status == Cancelled ==> Next(w, s).tables.payouts[id].status == Cancelled
  {
    assert RowOk(w, id);
  }

  /** The guards under which a step makes a change that the table does not have. */
  predicate LeavesTable(w: World, s: Step, id: PayoutId)
    requires id in w.tables.payouts
  {
    var r := w.tables.payouts[id];
    || (s.Release? && At(w, s.worker, Failing(id)) && r.status == Processing)
    || (s.Record? && s.worker in w.workers && w.workers[s.worker].Got? && w.workers[s.worker].id == id
        && r.status == Approved && r.transferId == None)
    || (s.TransferFailed? && s.id == id && Recorded(w.tables, id, s.transfer) && r.status == Paid)
  }

  /** The new status is not among those the table allows. */
  predicate AgainstTable(from: Status, to: Status) {
    from != to && to !in AllowedTransitions(from)
  }

  lemma {:induction false} RecordAgainstTable(w: World, k: nat, id: PayoutId)
    requires Good(w) && id in w.tables.payouts
    ensures id in Next(w, Record(k)).tables.payouts
    ensures AgainstTable(w.tables.payouts[id].status, Next(w, Record(k)).tables.payouts[id].status)
      <==> LeavesTable(w, Record(k), id)
    ensures LeavesTable(w, Record(k), id) ==> Next(w, Record(k)).tables.payouts[id].status == Paid
  {
    assert RowOk(w, id);
  }

  lemma {:induction false} OthersAgainstTable(w: World, s: Step, id: PayoutId)
    requires Good(w) && id in w.tables.payouts && !s.Record?
    ensures id in Next(w, s).tables.payouts
    ensures AgainstTable(w.tables.payouts[id].status, Next(w, s).tables.payouts[id].status) <==> LeavesTable(w, s, id)
    ensures LeavesTable(w, s, id) ==> Next(w, s).tables.payouts[id].status == if s.Release? then Approved else Failed
  {
    assert RowOk(w, id);
  }

  /**
   * A step changes a status against the table if and only if it releases a failed
   * attempt (PROCESSING to APPROVED), records a transfer on a released payout
   * (APPROVED to PAID), or reports the recorded transfer of a PAID one as failed.
   */
  lemma {:induction false} LeavesTableExactlyWhen(w: World, s: Step, id: PayoutId)
    requires Good(w) && id in w.tables.payouts
    ensures id in Next(w, s).tables.payouts
    ensures AgainstTable(w.tables.payouts[id].status, Next(w, s).tables.payouts[id].status) <==> LeavesTable(w, s, id)
    ensures LeavesTable(w, s, id) ==>
      Next(w, s).tables.payouts[id].status == (if s.Release? then Approved else if s.Record? then Paid else Failed)
  {
    match s {
      case Record(k) => RecordAgainstTable(w, k, id);
      case _ => OthersAgainstTable(w, s, id);
    }
  }

  lemma {:induction false} OneMoreStep(w: World, steps: seq<Step>, s: Step)
    ensures Run(w, steps + [s]) == Next(Run(w, steps), s)
  {
    assert (steps + [s])[..|steps|] == steps;
  }

  /** A payout as it is created and can be paid out. */
  ghost predicate Payable(w: World, id: PayoutId) {
    && Fresh(w) && id in w.tables.payouts
    && w.tables.payouts[id].overStripe && w.tables.payouts[id].verified && w.tables.payouts[id].amount > 0
  }

  /** The payout alone has changed, and worker 0 is the only one at work. */
  function Alone(w: World, id: PayoutId, status: Status, processedAt: Option<int>, workers: map<nat, Phase>): World
    requires id in w.tables.payouts
  {
    var row := w.tables.payouts[id].(status := status, processedAt := processedAt);
    w.(tables := w.tables.(payouts := w.tables.payouts[id := row]), workers := workers)
  }

  lemma {:induction false} StepTo(w: World, steps: seq<Step>, s: Step, mid: World, after: World)
    requires Run(w, steps) == mid && Next(mid, s) == after
    ensures Run(w, steps + [s]) == after
  {
    OneMoreStep(w, steps, s);
  }

  lemma {:induction false} Approves(w: World, id: PayoutId)
    requires Payable(w, id)
    ensures Next(w, ApproveStep(id)) == Alone(w, id, Approved, w.tables.payouts[id].processedAt, map[])
  {
  }

  lemma {:induction false} Starts(w: World, id: PayoutId)
    requires Payable(w, id)
    ensures var at := w.tables.payouts[id].processedAt;
      Next(Alone(w, id, Approved, at, map[]), Begin(0, id, false)) == Alone(w, id, Approved, at, map[0 := Checked(id)])
  {
    assert map[][0 := Checked(id)] == map[0 := Checked(id)];
  }

  lemma {:induction false} Claims(w: World, id: PayoutId)
    requires Payable(w, id)
    ensures var at := w.tables.payouts[id].processedAt;
      Next(Alone(w, id, Approved, at, map[0 := Checked(id)]), Claim(0))
        == Alone(w, id, Processing, Some(w.now), map[0 := Claimed(id)])
  {
    var before, after := Alone(w, id, Approved, w.tables.payouts[id].processedAt, map[0 := Checked(id)]),
                         Alone(w, id, Processing, Some(w.now), map[0 := Claimed(id)]);
    assert before.tables.payouts[id := after.tables.payouts[id]] == after.tables.payouts;
    assert before.workers[0 := Claimed(id)] == after.workers;
  }

  /** Approved and claimed by one worker. */
  lemma {:induction false} ClaimHappens(w: World, id: PayoutId) returns (steps: seq<Step>)
    requires Payable(w, id)
    ensures Run(w, steps) == Alone(w, id, Processing, Some(w.now), map[0 := Claimed(id)])
  {
    var at := w.tables.payouts[id].processedAt;
    Approves(w, id);
    StepTo(w, [], ApproveStep(id), w, Alone(w, id, Approved, at, map[]));
    Starts(w, id);
    StepTo(w, [] + [ApproveStep(id)], Begin(0, id, false), Alone(w, id, Approved, at, map[]),
      Alone(w, id, Approved, at, map[0 := Checked(id)]));
    Claims(w, id);
    steps := [] + [ApproveStep(id)] + [Begin(0, id, false)];
    StepTo(w, steps, Claim(0), Alone(w, id, Approved, at, map[0 := Checked(id)]),
      Alone(w, id, Processing, Some(w.now), map[0 := Claimed(id)]));
    steps := steps + [Claim(0)];
  }

  /** PROCESSING to APPROVED happens: Stripe refuses and the payout is released. */
  lemma {:induction false} ReleaseHappens(w: World, id: PayoutId) returns (steps: seq<Step>)
    requires Payable(w, id)
    ensures id in Run(w, steps).tables.payouts && LeavesTable(Run(w, steps), Release(0), id)
  {
    steps := ClaimHappens(w, id);
    OneMoreStep(w, steps, StripeRefuses(0));
    steps := steps + [StripeRefuses(0)];
  }

  /** PAID to FAILED happens: the recorded transfer is reported as failed. */
  lemma {:induction false} FailureHappens(w: World, id: PayoutId) returns (steps: seq<Step>)
    requires Payable(w, id)
    ensures id in Run(w, steps).tables.payouts && LeavesTable(Run(w, steps), TransferFailed(id, 0), id)
  {
    steps := ClaimHappens(w, id);
    OneMoreStep(w, steps, StripeAccepts(0, false));
    steps := steps + [StripeAccepts(0, false)];
    OneMoreStep(w, steps, Record(0));
    steps := steps + [Record(0)];
  }

  /** A recovery worker takes a stale claim over, is refused and releases it; the first worker still has its answer. */
  lemma {:induction false} RecoveryReleases(v: World, id: PayoutId, i: nat)
    requires id in v.tables.payouts && v.workers == map[0 := Got(id, i)]
    requires var r := v.tables.payouts[id];
      r.status == Processing && r.transferId == None && r.processedAt == Some(v.now) && r.overStripe && r.verified &&
        r.amount > 0
    ensures var w1 := Next(v, Wait(RECOVERY_MS));
      var w2 := Next(w1, Begin(1, id, false));
      var w3 := Next(w2, Claim(1));
      var w4 := Next(w3, StripeRefuses(1));
      var w5 := Next(w4, Release(1));
      id in w5.tables.payouts && LeavesTable(w5, Record(0), id)
  {
  }

  /** APPROVED to PAID happens: a slow worker records after a recovery worker released the payout. */
  lemma {:induction false} LateRecordHappens(w: World, id: PayoutId) returns (steps: seq<Step>)
    requires Payable(w, id)
    ensures id in Run(w, steps).tables.payouts && LeavesTable(Run(w, steps), Record(0), id)
  {
    steps := ClaimHappens(w, id);
    OneMoreStep(w, steps, StripeAccepts(0, false));
    steps := steps + [StripeAccepts(0, false)];
    var v := Run(w, steps);
    assert v.workers == map[0 := Got(id, 0)];
    RecoveryReleases(v, id, 0);
    var more := [Wait(RECOVERY_MS), Begin(1, id, false), Claim(1), StripeRefuses(1), Release(1)];
    FiveMoreSteps(w, steps, more);
    steps := steps + more;
  }

  lemma {:induction false} FiveMoreSteps(w: World, steps: seq<Step>, more: seq<Step>)
    requires |more| == 5
    ensures Run(w, steps + more)
      == Next(Next(Next(Next(Next(Run(w, steps), more[0]), more[1]), more[2]), more[3]), more[4])
  {
    OneMoreStep(w, steps, more[0]);
    OneMoreStep(w, steps + [more[0]], more[1]);
    OneMoreStep(w, steps + [more[0]] + [more[1]], more[2]);
    OneMoreStep(w, steps + [more[0]] + [more[1]] + [more[2]], more[3]);
    OneMoreStep(w, steps + [more[0]] + [more[1]] + [more[2]] + [more[3]], more[4]);
    assert steps + more == steps + [more[0]] + [more[1]] + [more[2]] + [more[3]] + [more[4]];
  }

  /** Once a transfer is recorded, no further attempt gets past the guards, even if the payout is approved again. */
  lemma {:induction false} RecordedIsNeverProcessedAgain(r: Row, now: int)
    requires r.transferId.Some?
    ensures !Processable(r, now) && ClaimRow(r, now) == None
    ensures r.status == Failed ==> ApproveRow(r).Some? && !Processable(ApproveRow(r).value, now)
  {
  }

  // ---- webhook effects ---------------------------------------------------------------------------

  /** The effects of the event have had their say: it can change the payout no more. */
  ghost predicate Exhausted(w: World, s: Step, id: PayoutId) {
    && id in w.tables.payouts && w.tables.payouts[id].transferId.Some?
    && (w.tables.payouts[id].status == Paid ==> s.TransferPaid? && w.tables.payouts[id].settled)
  }

  lemma {:induction false} StaysExhausted(w: World, s: Step, t: Step, id: PayoutId)
    requires Good(w) && Exhausted(w, s, id)
    ensures Exhausted(Next(w, t), s, id)
  {
    assert RowOk(w, id);
    AmountKept(w, t, id);
    StatusChanges(w, t, id);
  }

  lemma {:induction false} ExhaustedForever(w: World, s: Step, steps: seq<Step>, id: PayoutId)
    requires Good(w) && Exhausted(w, s, id)
    ensures Exhausted(Run(w, steps), s, id)
    decreases |steps|
  {
    if steps != [] {
      ExhaustedForever(w, s, steps[..|steps| - 1], id);
      RunKeepsGood(w, steps[..|steps| - 1]);
      StaysExhausted(Run(w, steps[..|steps| - 1]), s, steps[|steps| - 1], id);
    }
  }

  /**
   * A transfer event that is applied again changes nothing, however late: once its
   * transfer is recorded and it has been applied, a second application of the same
   * event finds nothing left to do.
   */
  lemma {:induction false} TransferEventsTakeEffectOnce(w: World, s: Step, steps: seq<Step>)
    requires Good(w) && (s.TransferFailed? || s.TransferPaid?) && Recorded(w.tables, s.id, s.transfer)
    ensures Next(Run(Next(w, s), steps), s) == Run(Next(w, s), steps)
  {
    assert RowOk(w, s.id);
    NextKeepsGood(w, s);
    assert Exhausted(Next(w, s), s, s.id);
    ExhaustedForever(Next(w, s), s, steps, s.id);
    RunKeepsGood(Next(w, s), steps);
    var v := Run(Next(w, s), steps);
    assert RowOk(v, s.id);
  }

  // ---- cancelling ----------------------------------------------------------------------------------

  ghost predicate ClaimHeld(w: World, id: PayoutId) {
    exists k :: k in w.workers && w.workers[k] == Claimed(id)
  }

  /** A cancelled payout without a transfer, on which no worker holds a claim. */
  ghost predicate Clean(w: World, id: PayoutId) {
    id in w.tables.payouts && w.tables.payouts[id].status == Cancelled && TransfersFor(w, id) == {} && !ClaimHeld(w, id)
  }

  lemma {:induction false} CleanStaysClean(w: World, s: Step, id: PayoutId)
    requires Good(w) && Clean(w, id)
    ensures Clean(Next(w, s), id)
  {
    var v := Next(w, s);
    AmountKept(w, s, id);
    StatusChanges(w, s, id);
    forall k | k in v.workers ensures v.workers[k] != Claimed(id) {}
    if s.StripeAccepts? && s.worker in w.workers && w.workers[s.worker].Claimed? {
      KeysTellPayoutsApart(id, w.workers[s.worker].id);
    }
    forall i | 0 <= i < |v.transfers| ensures v.transfers[i].key != IdempotencyKey(id) {
      assert i < |w.transfers| ==> i !in TransfersFor(w, id);
    }
  }

  lemma {:induction false} CleanForever(w: World, steps: seq<Step>, id: PayoutId)
    requires Good(w) && Clean(w, id)
    ensures Clean(Run(w, steps), id)
    decreases |steps|
  {
    if steps != [] {
      CleanForever(w, steps[..|steps| - 1], id);
      RunKeepsGood(w, steps[..|steps| - 1]);
      CleanStaysClean(Run(w, steps[..|steps| - 1]), steps[|steps| - 1], id);
    }
  }

  /** No transfer exists now or after any further steps. */
  ghost predicate NeverSent(w: World, id: PayoutId) {
    forall steps {:trigger Run(w, steps)} :: Unsent(Run(w, steps), id)
  }

  ghost predicate Unsent(w: World, id: PayoutId) {
    TransfersFor(w, id) == {}
  }

  lemma {:induction false} UnsentAfter(w: World, id: PayoutId, steps: seq<Step>)
    requires NeverSent(w, id)
    ensures Unsent(Run(w, steps), id)
  {
  }

  /**
   * CANCELLED means that no money ever leaves exactly when, at that moment, no
   * transfer has been made and no worker holds a claim on the payout.
   */
  lemma {:induction false} CancelledMeansUnsentExactlyWhenClean(w: World, id: PayoutId)
    requires Good(w) && id in w.tables.payouts && w.tables.payouts[id].status == Cancelled
    ensures NeverSent(w, id) <==> Unsent(w, id) && !ClaimHeld(w, id)
  {
    if Unsent(w, id) && !ClaimHeld(w, id) {
      forall steps ensures Unsent(Run(w, steps), id) { CleanForever(w, steps, id); }
    }
    if NeverSent(w, id) {
      UnsentAfter(w, id, []);
      if k :| k in w.workers && w.workers[k] == Claimed(id) {
        var steps := [StripeAccepts(k, false)];
        UnsentAfter(w, id, steps);
        assert steps[..0] == [];
        SentNow(w, id, k);
      }
    }
  }

  lemma {:induction false} SentNow(w: World, id: PayoutId, k: nat)
    requires k in w.workers && w.workers[k] == Claimed(id) && id in w.tables.payouts
    ensures TransfersFor(Next(w, StripeAccepts(k, false)), id) != {}
  {
    var (transfers, i) := Send(w.transfers, IdempotencyKey(id), w.tables.payouts[id].amount);
    assert i in TransfersFor(Next(w, StripeAccepts(k, false)), id);
  }

  /**
   * A lost response followed by a release lets a paid-out prize be cancelled: the transfer exists and no row says so.
   */
  lemma {:induction false} CancelCanHideATransfer(w: World, id: PayoutId, k: nat)
    requires id in w.tables.payouts && k !in w.workers
    requires w.tables.payouts[id].status == Approved && Processable(w.tables.payouts[id], w.now)
    ensures var w1 := Next(w, Begin(k, id, false));
      var w2 := Next(w1, Claim(k));
      var w3 := Next(w2, StripeAccepts(k, true));
      var w4 := Next(w3, Release(k));
      var w5 := Next(w4, CancelStep(id));
      && id in w4.tables.payouts && w4.tables.payouts[id].status == Approved
      && w5.tables.payouts[id].status == Cancelled && w5.tables.payouts[id].transferId == None
      && w5.tables.ledger == w.tables.ledger && TransfersFor(w5, id) != {}
  {
    var w1 := Next(w, Begin(k, id, false));
    var w2 := Next(w1, Claim(k));
    var (transfers, i) := Send(w2.transfers, IdempotencyKey(id), w2.tables.payouts[id].amount);
    var w3 := Next(w2, StripeAccepts(k, true));
    var w4 := Next(w3, Release(k));
    var w5 := Next(w4, CancelStep(id));
    assert i in TransfersFor(w5, id);
  }
}
