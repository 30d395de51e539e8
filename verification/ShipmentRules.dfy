/**
 * What each operation on shipments does and exactly when it goes through, and why
 * every shipment of a run is what it is.
 */
module ShipmentRules {
  import opened Common
  import opened Ledger
  import opened Shipments

  // ---- one operation ----------------------------------------------------------------------

  /** The one new ledger row and what it does to its player's balance. */
  ghost predicate Pays(b: Book<Ref>, e: Book<Ref>, user: UserId, amount: int, reference: Ref) {
    && user in b.balances && e.balances == b.balances[user := b.balances[user] + amount]
    && |e.rows| == |b.rows| + 1 && e.rows[..|b.rows|] == b.rows
    && RowIs(e.rows, |b.rows|, user, amount, reference)
  }

  ghost predicate OneFewer(d: Store, e: Store, variant: nat) {
    variant in d.stock && d.stock[variant] >= 1 && e.stock == d.stock[variant := d.stock[variant] - 1]
  }

  ghost predicate OneMoreShipment(d: Store, e: Store, user: UserId, variant: nat, request: Option<nat>, cost: nat,
      purchase: Option<nat>)
  {
    && |e.shipments| == |d.shipments| + 1 && e.shipments[..|d.shipments|] == d.shipments
    && var s := e.shipments[|d.shipments|];
      && s.user == user && s.variant == variant && s.request == request && s.cost == cost && s.status == Pending
      && s.purchase == purchase && s.refund == None
      && s.shippedAt == None && s.deliveredAt == None && s.cancelledAt == None
  }

  /** An administrator's shipment takes one piece and nobody's money. */
  lemma {:induction false} AdminCreateIsRight(d: Store, user: UserId, variant: nat, eligible: bool)
    ensures AdminCreate(d, user, variant, eligible).Ok? <==>
      eligible && variant in d.stock && d.stock[variant] >= 1
    ensures AdminCreate(d, user, variant, eligible).Ok? ==>
      var e := AdminCreate(d, user, variant, eligible).value;
      OneFewer(d, e, variant) && e.book == d.book && OneMoreShipment(d, e, user, variant, None, 0, None)
    ensures AdminCreate(d, user, variant, eligible).Err? ==>
      var why := AdminCreate(d, user, variant, eligible).error;
      && (why == Ineligible <==> !eligible) && (why == NotFound <==> eligible && variant !in d.stock)
      && (why == OutOfStock <==> eligible && variant in d.stock)
  {
  }

  ghost predicate Claimed(d: Store, user: UserId, request: nat) {
    exists i :: 0 <= i < |d.shipments| && d.shipments[i].user == user && d.shipments[i].request == Some(request)
  }

  /** A claim pays its cost, takes one piece and answers a repeated request without a change. */
  lemma {:induction false} ClaimIsRight(d: Store, user: UserId, request: nat, variant: nat, cost: nat, eligible: bool)
    requires Good(d)
    ensures var outcome := Claim(d, user, request, variant, cost, eligible);
      && (Claimed(d, user, request) ==> outcome == Ok(d))
      && (!Claimed(d, user, request) ==>
         && (outcome.Ok? <==>
            eligible && cost > 0 && variant in d.stock && d.stock[variant] >= 1
            && user in d.book.balances && d.book.balances[user] >= cost)
         && (outcome.Ok? ==>
            && OneFewer(d, outcome.value, variant)
            && OneMoreShipment(d, outcome.value, user, variant, Some(request), cost, Some(|d.book.rows|))
            && Pays(d.book, outcome.value.book, user, 0 - cost, PurchaseRef(user, request)))
         && (outcome.Err? ==>
            && (outcome.error == Ineligible <==> !eligible || cost == 0)
            && (outcome.error == NotFound <==> eligible && cost > 0 && variant !in d.stock)
            && (outcome.error.NotRecorded? <==>
               eligible && cost > 0 && variant in d.stock &&
               (user !in d.book.balances || d.book.balances[user] < cost))))
  {
    ClaimGoesThroughExactlyWhen(d, user, request, variant, cost, eligible);
    if !HasRequest(d.shipments, user, request) { FreshRequest(d, user, request); }
  }

  /** The moves between two different statuses. */
  ghost predicate MayMove(from: Status, to: Status) {
    || (from == Pending && to == InTransit)
    || (from == Pending && to == Cancelled)
    || (from == InTransit && to == Delivered)
  }

  /** The wallet that a refund would go to, if one is due, takes it. */
  ghost predicate RefundFits(d: Store, i: nat)
    requires i < |d.shipments|
  {
    d.shipments[i].request.Some? ==>
      d.shipments[i].user in d.book.balances && d.book.balances[d.shipments[i].user] >= 0
  }

  /** Cancelled: the piece is back, a claim is paid back, and nothing else of the shipment changed. */
  ghost predicate CancelledAt(d: Store, e: Store, i: nat, now: int)
    requires i < |d.shipments|
  {
    var s := d.shipments[i];
    && |e.shipments| == |d.shipments| && s.variant in d.stock
    && (forall k :: 0 <= k < |d.shipments| && k != i ==> e.shipments[k] == d.shipments[k])
    && e.stock == d.stock[s.variant := d.stock[s.variant] + 1]
    && e.shipments[i] == s.(status := Cancelled, cancelledAt := Some(now), refund := e.shipments[i].refund)
    && (s.request.None? ==> e.book == d.book && e.shipments[i].refund == s.refund)
    && (s.request.Some? ==>
       e.shipments[i].refund == Some(|d.book.rows|) && Pays(d.book, e.book, s.user, s.cost, RefundRef(i)))
  }

  lemma {:induction false} CancelIsRight(d: Store, i: nat, now: int)
    requires Good(d) && i < |d.shipments| && d.shipments[i].status == Pending
    ensures CancelAt(d, i, now).Ok? <==> RefundFits(d, i)
    ensures CancelAt(d, i, now).Ok? ==> CancelledAt(d, CancelAt(d, i, now).value, i, now)
    ensures CancelAt(d, i, now).Err? ==> CancelAt(d, i, now).error.NotRecorded?
  {
    CancelKeeps(d, i, now);
    assert ShipmentOk(d, i);
  }

  /** Only the one shipment moves, and only its status and the time of the move. */
  ghost predicate MovedOn(d: Store, e: Store, i: nat, status: Status, now: int)
    requires i < |d.shipments|
  {
    var s := d.shipments[i];
    && e.stock == d.stock && e.book == d.book && |e.shipments| == |d.shipments|
    && (forall k :: 0 <= k < |d.shipments| && k != i ==> e.shipments[k] == d.shipments[k])
    && e.shipments[i].status == status
    && (status == InTransit ==> e.shipments[i] == s.(status := InTransit, shippedAt := Some(now)))
    && (status == Delivered ==> e.shipments[i] == s.(status := Delivered, deliveredAt := Some(now)))
  }

  /** A status update goes through exactly along the three moves, or onto the status itself, and a refund must fit. */
  lemma {:induction false} UpdateIsRight(d: Store, i: nat, status: Status, now: int)
    requires Good(d)
    ensures Update(d, i, status, now).Ok? <==>
      i < |d.shipments| && (status == d.shipments[i].status ||
        (MayMove(d.shipments[i].status, status) && (status == Cancelled ==> RefundFits(d, i))))
    ensures Update(d, i, status, now).Ok? ==>
      var e := Update(d, i, status, now).value;
      if status == d.shipments[i].status then e == d
      else if status == Cancelled then CancelledAt(d, e, i, now)
      else MovedOn(d, e, i, status, now)
    ensures Update(d, i, status, now).Err? ==>
      var why := Update(d, i, status, now).error;
      && (why == NotFound <==> i >= |d.shipments|)
      && (why == BadTransition <==> i < |d.shipments| && !MayMove(d.shipments[i].status, status))
  {
    if i < |d.shipments| {
      assert ShipmentOk(d, i);
      if d.shipments[i].status == Pending { CancelIsRight(d, i, now); }
    }
  }

  /** Only the owner cancels, and only while the shipment is pending; anything else is answered without a change. */
  lemma {:induction false} CancelOwnedIsRight(d: Store, user: UserId, i: nat, now: int)
    requires Good(d)
    ensures var mine := i < |d.shipments| && d.shipments[i].user == user && d.shipments[i].status == Pending;
      var outcome := CancelOwned(d, user, i, now);
      && (!mine ==> outcome == Ok(d))
      && (mine ==> (outcome.Ok? <==> RefundFits(d, i)) && (outcome.Ok? ==> CancelledAt(d, outcome.value, i, now)))
  {
    if i < |d.shipments| && d.shipments[i].status == Pending { CancelIsRight(d, i, now); }
  }

  // ---- every run -----------------------------------------------------------------------------

  predicate Makes(op: Op, s: Shipment) {
    if s.request.None? then op == CreateOp(s.user, s.variant, true)
    else op == ClaimOp(s.user, s.request.value, s.variant, s.cost, true)
  }

  ghost predicate CancelledBy(ops: seq<Op>, user: UserId, i: nat, now: int) {
    UpdateOp(i, Cancelled, now) in ops || CancelOp(user, i, now) in ops
  }

  /** The operations that made the shipment, sent it, delivered it and cancelled it, at the times it carries. */
  ghost predicate Justified(ops: seq<Op>, s: Shipment, i: nat) {
    && (exists k :: 0 <= k < |ops| && Makes(ops[k], s))
    && (s.status in {InTransit, Delivered} ==> s.shippedAt.Some? && UpdateOp(i, InTransit, s.shippedAt.value) in ops)
    && (s.status == Delivered ==> s.deliveredAt.Some? && UpdateOp(i, Delivered, s.deliveredAt.value) in ops)
    && (s.status == Cancelled ==> s.cancelledAt.Some? && CancelledBy(ops, s.user, i, s.cancelledAt.value))
  }

  ghost predicate AllJustified(ops: seq<Op>, d: Store) {
    forall i: nat {:trigger Justified(ops, d.shipments[i], i)} :: i < |d.shipments| ==>
      Justified(ops, d.shipments[i], i)
  }

  lemma {:induction false} StillJustified(ops: seq<Op>, op: Op, s: Shipment, i: nat)
    requires Justified(ops, s, i)
    ensures Justified(ops + [op], s, i)
  {
    var k :| 0 <= k < |ops| && Makes(ops[k], s);
    assert (ops + [op])[k] == ops[k];
  }

  /** A shipment the operation changed. */
  lemma {:induction false} ChangeIsJustified(ops: seq<Op>, d: Store, op: Op, i: nat)
    requires Good(d) && i < |d.shipments| <= |Step(d, op).shipments| && Justified(ops, d.shipments[i], i)
    ensures Justified(ops + [op], Step(d, op).shipments[i], i)
  {
    var s, t := d.shipments[i], Step(d, op).shipments[i];
    StillJustified(ops, op, s, i);
    assert op in ops + [op];
    match op {
      case CreateOp(user, variant, eligible) =>
        AdminCreateIsRight(d, user, variant, eligible);
      case ClaimOp(user, request, variant, cost, eligible) =>
        ClaimIsRight(d, user, request, variant, cost, eligible);
      case UpdateOp(j, status, now) =>
        UpdateIsRight(d, j, status, now);
        if t != s { MadeTheSame(ops + [op], s, t); }
      case CancelOp(user, j, now) =>
        CancelOwnedIsRight(d, user, j, now);
        if t != s { MadeTheSame(ops + [op], s, t); }
      case MoveOp(_) =>
    }
  }

  lemma {:induction false} MadeTheSame(ops: seq<Op>, s: Shipment, t: Shipment)
    requires exists k :: 0 <= k < |ops| && Makes(ops[k], s)
    requires t.user == s.user && t.variant == s.variant && t.request == s.request && t.cost == s.cost
    ensures exists k :: 0 <= k < |ops| && Makes(ops[k], t)
  {
    var k :| 0 <= k < |ops| && Makes(ops[k], s);
    assert Makes(ops[k], t);
  }

  lemma {:induction false} NewIsJustified(ops: seq<Op>, d: Store, op: Op)
    requires Good(d) && |Step(d, op).shipments| > |d.shipments|
    ensures |Step(d, op).shipments| == |d.shipments| + 1
    ensures Justified(ops + [op], Step(d, op).shipments[|d.shipments|], |d.shipments|)
  {
    assert (ops + [op])[|ops|] == op;
    match op {
      case CreateOp(user, variant, eligible) =>
        AdminCreateIsRight(d, user, variant, eligible);
        assert Makes((ops + [op])[|ops|], Step(d, op).shipments[|d.shipments|]);
      case ClaimOp(user, request, variant, cost, eligible) =>
        ClaimIsRight(d, user, request, variant, cost, eligible);
        assert Makes((ops + [op])[|ops|], Step(d, op).shipments[|d.shipments|]);
      case UpdateOp(j, status, now) => UpdateIsRight(d, j, status, now);
      case CancelOp(user, j, now) => CancelOwnedIsRight(d, user, j, now);
      case MoveOp(_) =>
    }
  }

  lemma {:induction false} StepJustifies(ops: seq<Op>, d: Store, op: Op)
    requires Good(d) && |d.shipments| <= |Step(d, op).shipments| && AllJustified(ops, d)
    ensures AllJustified(ops + [op], Step(d, op))
  {
    var shipments := Step(d, op).shipments;
    forall i: nat | i < |shipments| ensures Justified(ops + [op], shipments[i], i) {
      if i < |d.shipments| {
        assert Justified(ops, d.shipments[i], i);
        ChangeIsJustified(ops, d, op, i);
      } else {
        NewIsJustified(ops, d, op);
      }
    }
  }

  /**
   * Over every run from before the first shipment: every shipment was made by an
   * administrator or claimed by its own player for its cost, was sent and delivered by an
   * administrator at the times it carries, and was cancelled by an administrator or by its
   * own player.
   */
  lemma {:induction false} EveryShipmentHasItsReason(d: Store, ops: seq<Op>)
    requires Unopened(d)
    ensures AllJustified(ops, Run(d, ops))
    decreases |ops|
  {
    if ops == [] {
    } else {
      var init, op := ops[..|ops| - 1], ops[|ops| - 1];
      var before := Run(d, init);
      EveryShipmentHasItsReason(d, init);
      FromTheFirstShipment(d, init, 0, 0);
      StepKeeps(before, op);
      StepJustifies(init, before, op);
      assert init + [op] == ops;
    }
  }
}
