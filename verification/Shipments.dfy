/**
 * Merchandise shipments: reserving and restoring stock, the status machine, and
 * the purchase and refund of a player's claim.
 */
module Shipments {
  import opened Common
  import opened Ledger

  datatype Ref = PurchaseRef(user: UserId, request: nat) | RefundRef(shipment: nat) | OtherRef(id: nat)

  datatype Status = Pending | InTransit | Delivered | Cancelled

  /** `purchase` and `refund` are positions of ledger rows; an admin-created shipment has neither. */
  datatype Shipment = Shipment(
    user: UserId,
    variant: nat,
    request: Option<nat>,
    cost: nat,
    purchase: Option<nat>,
    refund: Option<nat>,
    status: Status,
    shippedAt: Option<int>,
    deliveredAt: Option<int>,
    cancelledAt: Option<int>)

  datatype Store = Store(stock: map<nat, nat>, shipments: seq<Shipment>, book: Book<Ref>)

  datatype Failure = NotFound | Ineligible | OutOfStock | BadTransition | NotRecorded(why: Refusal)

  // ---- operations --------------------------------------------------------------------

  predicate InStock(d: Store, variant: nat) {
    variant in d.stock && d.stock[variant] > 0
  }

  function Reserved(d: Store, variant: nat): map<nat, nat>
    requires InStock(d, variant)
  {
    d.stock[variant := d.stock[variant] - 1]
  }

  /** `create` by an administrator; `eligible`: the address is complete and the product is active. */
  function AdminCreate(d: Store, user: UserId, variant: nat, eligible: bool): Result<Store, Failure> {
    if !eligible then Err(Ineligible)
    else if variant !in d.stock then Err(NotFound)
    else if !InStock(d, variant) then Err(OutOfStock)
    else Ok(d.(stock := Reserved(d, variant),
               shipments := d.shipments + [Shipment(user, variant, None, 0, None, None, Pending, None, None, None)]))
  }

  predicate HasRequest(shipments: seq<Shipment>, user: UserId, request: nat) {
    exists i :: 0 <= i < |shipments| && shipments[i].user == user && shipments[i].request == Some(request)
  }

  function PurchaseEntry(user: UserId, request: nat, cost: nat): Entry<Ref> {
    Entry(user, Purchase, 0 - cost, Some(PurchaseRef(user, request)), false)
  }

  function RefundEntry(user: UserId, shipment: nat, cost: nat): Entry<Ref> {
    Entry(user, Refund, cost, Some(RefundRef(shipment)), false)
  }

  /** A player's claim: pay, reserve, create; a repeated request changes nothing. */
  function Claim(d: Store, user: UserId, request: nat, variant: nat, cost: nat,
      eligible: bool): Result<Store, Failure> {
    if HasRequest(d.shipments, user, request) then Ok(d)
    else if !eligible || cost == 0 then Err(Ineligible)
    else if variant !in d.stock then Err(NotFound)
    else
      match Record(d.book, PurchaseEntry(user, request, cost))
      case Err(why) => Err(NotRecorded(why))
      case Ok(book) =>
        if !InStock(d, variant) then Err(OutOfStock)
        else Ok(Store(Reserved(d, variant),
                      d.shipments +
                        [Shipment(user, variant, Some(request), cost, Some(|d.book.rows|), None, Pending, None, None,
                        None)],
                      book))
  }

  /** Cancelling: the piece goes back on the shelf, and a purchase is refunded unless it already was. */
  function CancelAt(d: Store, i: nat, now: int): Result<Store, Failure>
    requires i < |d.shipments|
  {
    var s := d.shipments[i];
    var stock := if s.variant in d.stock then d.stock[s.variant := d.stock[s.variant] + 1] else d.stock;
    var cancelled := s.(status := Cancelled, cancelledAt := Some(now));
    if s.purchase.Some? && s.refund.None? then
      match Record(d.book, RefundEntry(s.user, i, s.cost))
      case Err(why) => Err(NotRecorded(why))
      case Ok(book) => Ok(Store(stock, d.shipments[i := cancelled.(refund := Some(|d.book.rows|))], book))
    else Ok(d.(stock := stock, shipments := d.shipments[i := cancelled]))
  }

  function Allowed(from: Status): set<Status> {
    match from
    case Pending => {InTransit, Cancelled}
    case InTransit => {Delivered}
    case Delivered => {}
    case Cancelled => {}
  }

  /** The status half of `update`. */
  function Update(d: Store, i: nat, status: Status, now: int): Result<Store, Failure> {
    if i >= |d.shipments| then Err(NotFound)
    else
      var s := d.shipments[i];
      if status == s.status then Ok(d)
      else if status !in Allowed(s.status) then Err(BadTransition)
      else
        match status
        case InTransit =>
          Ok(d.(shipments :=
            d.shipments[i :=
            s.(status := InTransit, shippedAt := if s.shippedAt.None? then Some(now) else s.shippedAt)]))
        case Delivered =>
          Ok(d.(shipments :=
            d.shipments[i :=
            s.(status := Delivered, deliveredAt := if s.deliveredAt.None? then Some(now) else s.deliveredAt)]))
        case _ => CancelAt(d, i, now)
  }

  /** A player cancels an own pending claim; anything else changes nothing. */
  function CancelOwned(d: Store, user: UserId, i: nat, now: int): Result<Store, Failure> {
    if i >= |d.shipments| || d.shipments[i].user != user || d.shipments[i].status != Pending then Ok(d)
      else CancelAt(d, i, now)
  }

  /** Any other movement of money; it can use no reference of this component. */
  function Move(d: Store, entry: Entry<Ref>): Store {
    if entry.reference.Some? && !entry.reference.value.OtherRef? then d
    else match Record(d.book, entry) case Err(_) => d case Ok(book) => d.(book := book)
  }

  // ---- what always holds -----------------------------------------------------------------

  /** Shipments of a variant that have not been cancelled. */
  function Active(shipments: seq<Shipment>, variant: nat): nat {
    if shipments == [] then 0
    else
      var last := shipments[|shipments| - 1];
      Active(shipments[..|shipments| - 1], variant) +
        (if last.variant == variant && last.status != Cancelled then 1 else 0)
  }

  /** What a player has paid for claims that still stand. */
  function Standing(shipments: seq<Shipment>, user: UserId): nat {
    if shipments == [] then 0
    else
      var last := shipments[|shipments| - 1];
      Standing(shipments[..|shipments| - 1], user) +
        (if last.user == user && last.purchase.Some? && last.status != Cancelled then last.cost else 0)
  }

  predicate ShopRow(r: Row<Ref>) {
    r.reference.Some? && !r.reference.value.OtherRef?
  }

  /** What a player's purchase and refund rows add up to. */
  function Net(rows: seq<Row<Ref>>, user: UserId): int {
    if rows == [] then 0
    else
      var last := rows[|rows| - 1];
      Net(rows[..|rows| - 1], user) + (if last.user == user && ShopRow(last) then last.amount else 0)
  }

  predicate RowIs(rows: seq<Row<Ref>>, k: nat, user: UserId, amount: int, reference: Ref) {
    k < |rows| && rows[k].user == user && rows[k].amount == amount && rows[k].reference == Some(reference)
  }

  ghost predicate RowsMatch(rows: seq<Row<Ref>>, s: Shipment, i: nat) {
    && (s.purchase.Some? ==>
       s.request.Some? && RowIs(rows, s.purchase.value, s.user, 0 - s.cost, PurchaseRef(s.user, s.request.value)))
    && (s.refund.Some? ==> RowIs(rows, s.refund.value, s.user, s.cost, RefundRef(i)))
    && (s.request.Some? <==> s.purchase.Some?)
    && (s.refund.Some? <==> s.purchase.Some? && s.status == Cancelled)
  }

  ghost predicate TimesMatch(s: Shipment) {
    && (s.shippedAt.Some? <==> s.status in {InTransit, Delivered})
    && (s.deliveredAt.Some? <==> s.status == Delivered)
    && (s.cancelledAt.Some? <==> s.status == Cancelled)
  }

  ghost predicate ShipmentOk(d: Store, i: nat)
    requires i < |d.shipments|
  {
    var s := d.shipments[i];
    RowsMatch(d.book.rows, s, i) && TimesMatch(s) && s.variant in d.stock &&
      (s.purchase.Some? ==> s.user in d.book.balances)
  }

  predicate PointsAt(s: Shipment, i: int, r: Row<Ref>, k: nat)
    requires ShopRow(r)
  {
    if r.reference.value.PurchaseRef? then s.purchase == Some(k)
      else s.refund == Some(k) && i == r.reference.value.shipment
  }

  /** A purchase or refund row belongs to a shipment that points at it. */
  ghost predicate Explained(shipments: seq<Shipment>, r: Row<Ref>, k: nat) {
    ShopRow(r) ==> exists i :: 0 <= i < |shipments| && PointsAt(shipments[i], i, r, k)
  }

  ghost predicate OneRequest(shipments: seq<Shipment>) {
    forall i, j :: 0 <= i < j < |shipments| && shipments[i].request.Some? && shipments[i].user == shipments[j].user ==>
      shipments[i].request != shipments[j].request
  }

  ghost predicate Good(d: Store) {
    && (forall i: nat {:trigger ShipmentOk(d, i)} :: i < |d.shipments| ==> ShipmentOk(d, i))
    && (forall k: nat {:trigger Explained(d.shipments, d.book.rows[k], k)} :: k < |d.book.rows| ==>
       Explained(d.shipments, d.book.rows[k], k))
    && OneRequest(d.shipments)
    && (forall u: UserId {:trigger Net(d.book.rows, u)} :: Net(d.book.rows, u) == 0 - Standing(d.shipments, u))
  }

  /** Stock on the shelf plus pieces promised. */
  function Pieces(d: Store, variant: nat): nat {
    (if variant in d.stock then d.stock[variant] else 0) + Active(d.shipments, variant)
  }

  // ---- sums over one change -------------------------------------------------------------------

  lemma {:induction false} SumsAppend(shipments: seq<Shipment>, s: Shipment, variant: nat, user: UserId)
    ensures Active(shipments + [s], variant)
      == Active(shipments, variant) + (if s.variant == variant && s.status != Cancelled then 1 else 0)
    ensures Standing(shipments + [s], user)
      == Standing(shipments, user) + (if s.user == user && s.purchase.Some? && s.status != Cancelled then s.cost else 0)
  {
    assert (shipments + [s])[..|shipments|] == shipments;
  }

  lemma {:induction false} SumsUpdate(shipments: seq<Shipment>, i: nat, s: Shipment, variant: nat, user: UserId)
    requires i < |shipments|
    ensures var old_, next := shipments[i], shipments[i := s];
      && Active(next, variant) == Active(shipments, variant)
           - (if old_.variant == variant && old_.status != Cancelled then 1 else 0) +
             (if s.variant == variant && s.status != Cancelled then 1 else 0)
      && Standing(next, user) == Standing(shipments, user)
           - (if old_.user == user && old_.purchase.Some? && old_.status != Cancelled then old_.cost else 0)
           + (if s.user == user && s.purchase.Some? && s.status != Cancelled then s.cost else 0)
    decreases |shipments|
  {
    var next := shipments[i := s];
    if i < |shipments| - 1 {
      assert next[..|next| - 1] == shipments[..|shipments| - 1][i := s];
      SumsUpdate(shipments[..|shipments| - 1], i, s, variant, user);
    } else {
      assert next[..|next| - 1] == shipments[..|shipments| - 1];
    }
  }

  lemma {:induction false} NetAppend(rows: seq<Row<Ref>>, row: Row<Ref>, user: UserId)
    ensures Net(rows + [row], user) == Net(rows, user) + (if row.user == user && ShopRow(row) then row.amount else 0)
  {
    assert (rows + [row])[..|rows|] == rows;
  }

  // ---- every operation keeps it ------------------------------------------------------------------

  lemma {:induction false} StillExplained(a: seq<Shipment>, b: seq<Shipment>, r: Row<Ref>, k: nat)
    requires Explained(a, r, k) && |a| <= |b|
    requires forall i :: 0 <= i < |a| ==>
      (a[i].purchase.Some? ==> b[i].purchase == a[i].purchase) && (a[i].refund.Some? ==> b[i].refund == a[i].refund)
    ensures Explained(b, r, k)
  {
  }

  lemma {:induction false} NewShipmentKeepsGood(d: Store, e: Store, s: Shipment)
    requires Good(d) && e.shipments == d.shipments + [s] && e.stock.Keys == d.stock.Keys && s.variant in d.stock
    requires s.status == Pending && s.refund == None && s.shippedAt == None && s.deliveredAt == None &&
      s.cancelledAt == None
    requires s.request.Some? ==> !HasRequest(d.shipments, s.user, s.request.value)
    requires if s.purchase.None? then s.request == None && e.book == d.book
             else && s.request.Some? && Record(d.book, PurchaseEntry(s.user, s.request.value, s.cost)) == Ok(e.book)
                  && s.purchase == Some(|d.book.rows|)
    ensures Good(e)
  {
    forall i: nat | i < |e.shipments| ensures ShipmentOk(e, i) {
      if i < |d.shipments| { assert ShipmentOk(d, i); }
    }
    forall k: nat | k < |e.book.rows| ensures Explained(e.shipments, e.book.rows[k], k) {
      if k < |d.book.rows| {
        assert Explained(d.shipments, d.book.rows[k], k);
        StillExplained(d.shipments, e.shipments, d.book.rows[k], k);
      } else {
        assert e.shipments[|d.shipments|] == s;
      }
    }
    forall u: UserId ensures Net(e.book.rows, u) == 0 - Standing(e.shipments, u) {
      assert Net(d.book.rows, u) == 0 - Standing(d.shipments, u);
      SumsAppend(d.shipments, s, 0, u);
      if s.purchase.Some? { NetAppend(d.book.rows, e.book.rows[|d.book.rows|], u); }
    }
  }

  /** No purchase row exists for a request without a shipment: the ledger reference is never the obstacle. */
  lemma {:induction false} FreshRequest(d: Store, user: UserId, request: nat)
    requires Good(d) && !HasRequest(d.shipments, user, request)
    ensures !HasReference(d.book.rows, PurchaseRef(user, request))
  {
    forall k: nat | k < |d.book.rows| ensures d.book.rows[k].reference != Some(PurchaseRef(user, request)) {
      assert Explained(d.shipments, d.book.rows[k], k);
      if ShopRow(d.book.rows[k]) && d.book.rows[k].reference.value.PurchaseRef? {
        var i :| 0 <= i < |d.shipments| && d.shipments[i].purchase == Some(k);
        assert ShipmentOk(d, i);
      }
    }
  }

  /** What a new claim needs: an eligible player, a price, a piece on the shelf and a wallet that covers the price. */
  predicate Claimable(d: Store, user: UserId, variant: nat, cost: nat, eligible: bool) {
    && eligible && cost > 0 && InStock(d, variant)
    && user in d.book.balances && d.book.balances[user] >= cost
  }

  /**
   * A claim goes through exactly when its request id was used before or these needs are
   * met; a new one takes one piece, the price and nothing else. No leftover purchase row
   * ever stands in its way.
   */
  lemma {:induction false} ClaimGoesThroughExactlyWhen(d: Store, user: UserId, request: nat, variant: nat, cost: nat,
      eligible: bool)
    requires Good(d)
    ensures Claim(d, user, request, variant, cost, eligible).Ok?
       <==> HasRequest(d.shipments, user, request) || Claimable(d, user, variant, cost, eligible)
    ensures HasRequest(d.shipments, user, request) ==> Claim(d, user, request, variant, cost, eligible) == Ok(d)
    ensures !HasRequest(d.shipments, user, request) && Claimable(d, user, variant, cost, eligible) ==>
      var e := Claim(d, user, request, variant, cost, eligible).value;
      && e.stock == d.stock[variant := d.stock[variant] - 1]
      && e.book.balances == d.book.balances[user := d.book.balances[user] - cost]
      && |e.shipments| == |d.shipments| + 1 && HasRequest(e.shipments, user, request)
  {
    if !HasRequest(d.shipments, user, request) {
      FreshRequest(d, user, request);
      if Claimable(d, user, variant, cost, eligible) {
        var e := Claim(d, user, request, variant, cost, eligible).value;
        assert e.shipments[|d.shipments|].request == Some(request);
      }
    }
  }

  lemma {:induction false} FreshRefund(d: Store, i: nat)
    requires Good(d) && i < |d.shipments| && d.shipments[i].refund == None
    ensures !HasReference(d.book.rows, RefundRef(i))
  {
    forall k: nat | k < |d.book.rows| ensures d.book.rows[k].reference != Some(RefundRef(i)) {
      assert Explained(d.shipments, d.book.rows[k], k);
    }
  }

  /** One shipment replaced, with at most one refund row that pays it back. */
  lemma {:induction false} ChangedShipmentKeepsGood(d: Store, e: Store, i: nat)
    requires Good(d) && i < |d.shipments| == |e.shipments| && e.shipments == d.shipments[i := e.shipments[i]]
    requires e.stock.Keys == d.stock.Keys
    requires var s, t := d.shipments[i], e.shipments[i];
      && t == s.(status := t.status, refund := t.refund, shippedAt := t.shippedAt, deliveredAt := t.deliveredAt,
         cancelledAt := t.cancelledAt)
      && TimesMatch(t) && s.status != Cancelled
      && (if s.purchase.Some? && t.status == Cancelled
          then Record(d.book, RefundEntry(s.user, i, s.cost)) == Ok(e.book) && t.refund == Some(|d.book.rows|)
          else e.book == d.book && t.refund == s.refund)
    ensures Good(e)
  {
    assert ShipmentOk(d, i);
    forall j: nat | j < |e.shipments| ensures ShipmentOk(e, j) { assert ShipmentOk(d, j); }
    forall k: nat | k < |e.book.rows| ensures Explained(e.shipments, e.book.rows[k], k) {
      if k < |d.book.rows| {
        assert Explained(d.shipments, d.book.rows[k], k);
        StillExplained(d.shipments, e.shipments, d.book.rows[k], k);
      }
    }
    forall u: UserId ensures Net(e.book.rows, u) == 0 - Standing(e.shipments, u) {
      assert Net(d.book.rows, u) == 0 - Standing(d.shipments, u);
      SumsUpdate(d.shipments, i, e.shipments[i], 0, u);
      if e.book != d.book { NetAppend(d.book.rows, e.book.rows[|d.book.rows|], u); }
    }
  }

  /** What every operation keeps: consistency, the pieces of every variant, and timestamps once set. */
  ghost predicate Keeps(d: Store, e: Store) {
    && Good(e)
    && e.stock.Keys == d.stock.Keys
    && (forall v {:trigger Pieces(e, v)} :: v in d.stock ==> Pieces(e, v) == Pieces(d, v))
    && |d.shipments| <= |e.shipments|
    && (forall i :: 0 <= i < |d.shipments| ==>
          && (d.shipments[i].shippedAt.Some? ==> e.shipments[i].shippedAt == d.shipments[i].shippedAt)
          && (d.shipments[i].deliveredAt.Some? ==> e.shipments[i].deliveredAt == d.shipments[i].deliveredAt))
  }

  lemma {:induction false} AdminCreateKeeps(d: Store, user: UserId, variant: nat, eligible: bool)
    requires Good(d)
    ensures Keeps(d, Committed(d, AdminCreate(d, user, variant, eligible)))
  {
    var e := Committed(d, AdminCreate(d, user, variant, eligible));
    if e != d {
      var s := e.shipments[|d.shipments|];
      NewShipmentKeepsGood(d, e, s);
      forall v | v in d.stock ensures Pieces(e, v) == Pieces(d, v) { SumsAppend(d.shipments, s, v, 0); }
    }
  }

  lemma {:induction false} ClaimKeeps(d: Store, user: UserId, request: nat, variant: nat, cost: nat, eligible: bool)
    requires Good(d)
    ensures Keeps(d, Committed(d, Claim(d, user, request, variant, cost, eligible)))
  {
    var e := Committed(d, Claim(d, user, request, variant, cost, eligible));
    if e != d {
      var s := e.shipments[|d.shipments|];
      NewShipmentKeepsGood(d, e, s);
      forall v | v in d.stock ensures Pieces(e, v) == Pieces(d, v) { SumsAppend(d.shipments, s, v, 0); }
    }
  }

  /** Cancelling goes through exactly when there is nothing to refund or the owner is not overdrawn. */
  lemma {:induction false} CancelKeeps(d: Store, i: nat, now: int)
    requires Good(d) && i < |d.shipments| && d.shipments[i].status == Pending
    ensures Keeps(d, Committed(d, CancelAt(d, i, now)))
    ensures d.shipments[i].purchase.Some? ==> d.shipments[i].user in d.book.balances
    ensures CancelAt(d, i, now).Ok? <==> d.shipments[i].purchase.None? || d.book.balances[d.shipments[i].user] >= 0
    ensures CancelAt(d, i, now).Ok? && d.shipments[i].purchase.Some? ==>
      d.shipments[i].user in CancelAt(d, i, now).value.book.balances
      && CancelAt(d, i, now).value.book.balances[d.shipments[i].user]
         == d.book.balances[d.shipments[i].user] + d.shipments[i].cost
  {
    assert ShipmentOk(d, i);
    FreshRefund(d, i);
    if CancelAt(d, i, now).Ok? {
      var e := CancelAt(d, i, now).value;
      ChangedShipmentKeepsGood(d, e, i);
      forall v | v in d.stock ensures Pieces(e, v) == Pieces(d, v) { SumsUpdate(d.shipments, i, e.shipments[i], v, 0); }
    }
  }

  lemma {:induction false} MoveAlongKeeps(d: Store, e: Store, i: nat)
    requires Good(d) && i < |d.shipments| == |e.shipments| && e == d.(shipments := d.shipments[i := e.shipments[i]])
    requires var s, t := d.shipments[i], e.shipments[i];
      && t == s.(status := t.status, shippedAt := t.shippedAt, deliveredAt := t.deliveredAt)
      && TimesMatch(t) && s.status != Cancelled && t.status != Cancelled
      && (s.shippedAt.Some? ==> t.shippedAt == s.shippedAt) && (s.deliveredAt.Some? ==> t.deliveredAt == s.deliveredAt)
    ensures Keeps(d, e)
  {
    ChangedShipmentKeepsGood(d, e, i);
    forall v | v in d.stock ensures Pieces(e, v) == Pieces(d, v) { SumsUpdate(d.shipments, i, e.shipments[i], v, 0); }
  }

  lemma {:induction false} UpdateKeeps(d: Store, i: nat, status: Status, now: int)
    requires Good(d)
    ensures Keeps(d, Committed(d, Update(d, i, status, now)))
  {
    if i < |d.shipments| && status in Allowed(d.shipments[i].status) && status != d.shipments[i].status {
      assert ShipmentOk(d, i);
      if status == Cancelled {
        CancelKeeps(d, i, now);
      } else {
        MoveAlongKeeps(d, Update(d, i, status, now).value, i);
      }
    }
  }

  lemma {:induction false} MoveKeeps(d: Store, entry: Entry<Ref>)
    requires Good(d)
    ensures Keeps(d, Move(d, entry))
  {
    var e := Move(d, entry);
    if e != d {
      forall i: nat | i < |e.shipments| ensures ShipmentOk(e, i) { assert ShipmentOk(d, i); }
      forall k: nat | k < |e.book.rows| ensures Explained(e.shipments, e.book.rows[k], k) {
        if k < |d.book.rows| { assert Explained(d.shipments, d.book.rows[k], k); }
      }
      forall u: UserId ensures Net(e.book.rows, u) == 0 - Standing(e.shipments, u) {
        assert Net(d.book.rows, u) == 0 - Standing(d.shipments, u);
        NetAppend(d.book.rows, e.book.rows[|d.book.rows|], u);
      }
    }
  }

  // ---- every run ---------------------------------------------------------------------------------------

  datatype Op =
    | CreateOp(user: UserId, variant: nat, eligible: bool)
    | ClaimOp(user: UserId, request: nat, variant: nat, cost: nat, eligible: bool)
    | UpdateOp(shipment: nat, status: Status, now: int)
    | CancelOp(user: UserId, shipment: nat, now: int)
    | MoveOp(entry: Entry<Ref>)

  function Step(d: Store, op: Op): Store {
    match op
    case CreateOp(user, variant, eligible) => Committed(d, AdminCreate(d, user, variant, eligible))
    case ClaimOp(user, request, variant, cost, eligible) =>
      Committed(d, Claim(d, user, request, variant, cost, eligible))
    case UpdateOp(i, status, now) => Committed(d, Update(d, i, status, now))
    case CancelOp(user, i, now) => Committed(d, CancelOwned(d, user, i, now))
    case MoveOp(entry) => Move(d, entry)
  }

  lemma {:induction false} StepKeeps(d: Store, op: Op)
    requires Good(d)
    ensures Keeps(d, Step(d, op))
  {
    match op {
      case CreateOp(user, variant, eligible) => AdminCreateKeeps(d, user, variant, eligible);
      case ClaimOp(user, request, variant, cost, eligible) => ClaimKeeps(d, user, request, variant, cost, eligible);
      case UpdateOp(i, status, now) => UpdateKeeps(d, i, status, now);
      case CancelOp(user, i, now) =>
        if i < |d.shipments| && d.shipments[i].user == user && d.shipments[i].status == Pending {
          CancelKeeps(d, i, now);
        }
      case MoveOp(entry) => MoveKeeps(d, entry);
    }
  }

  function Run(d: Store, ops: seq<Op>): Store {
    if ops == [] then d else Step(Run(d, ops[..|ops| - 1]), ops[|ops| - 1])
  }

  lemma {:induction false} KeepsIsTransitive(a: Store, b: Store, c: Store)
    requires Keeps(a, b) && Keeps(b, c)
    ensures Keeps(a, c)
  {
    forall v | v in a.stock ensures Pieces(c, v) == Pieces(a, v) { assert Pieces(b, v) == Pieces(a, v); }
  }

  /**
   * Over every run: a variant's stock plus its uncancelled shipments is constant,
   * what a player's purchase and refund rows add up to is exactly the cost of the
   * claims that still stand, and shippedAt and deliveredAt never move once set.
   */
  lemma {:induction false} EveryRun(d: Store, ops: seq<Op>)
    requires Good(d)
    ensures Keeps(d, Run(d, ops))
    decreases |ops|
  {
    if ops != [] {
      EveryRun(d, ops[..|ops| - 1]);
      StepKeeps(Run(d, ops[..|ops| - 1]), ops[|ops| - 1]);
      KeepsIsTransitive(d, Run(d, ops[..|ops| - 1]), Run(d, ops));
    }
  }

  /** Before the first shipment: whatever the ledger holds, none of it is a purchase or a refund. */
  predicate Unopened(d: Store) {
    d.shipments == [] && forall k :: 0 <= k < |d.book.rows| ==> !ShopRow(d.book.rows[k])
  }

  lemma {:induction false} NothingSpentYet(rows: seq<Row<Ref>>, user: UserId)
    requires forall k :: 0 <= k < |rows| ==> !ShopRow(rows[k])
    ensures Net(rows, user) == 0
  {
    if rows == [] {
    } else {
      NothingSpentYet(rows[..|rows| - 1], user);
    }
  }

  lemma {:induction false} UnopenedIsGood(d: Store)
    requires Unopened(d)
    ensures Good(d)
  {
    forall u: UserId ensures Net(d.book.rows, u) == 0 - Standing(d.shipments, u) { NothingSpentYet(d.book.rows, u); }
  }

  /**
   * Every run from before the first shipment: what the shelf held at the start is on
   * the shelf or in an uncancelled shipment, and the money spent on shipments is
   * exactly the cost of the claims that stand.
   */
  lemma {:induction false} FromTheFirstShipment(d: Store, ops: seq<Op>, variant: nat, user: UserId)
    requires Unopened(d)
    ensures Good(Run(d, ops)) && Run(d, ops).stock.Keys == d.stock.Keys
    ensures variant in d.stock ==>
      Run(d, ops).stock[variant] + Active(Run(d, ops).shipments, variant) == d.stock[variant]
    ensures Net(Run(d, ops).book.rows, user) == 0 - Standing(Run(d, ops).shipments, user)
  {
    UnopenedIsGood(d);
    EveryRun(d, ops);
    assert variant in d.stock ==> Pieces(Run(d, ops), variant) == Pieces(d, variant);
  }

  /** A purchased shipment has exactly one refund row, for its cost, when cancelled, and none before. */
  lemma {:induction false} RefundedExactlyOnce(d: Store, i: nat)
    requires Good(d) && i < |d.shipments|
    ensures var refunds := set k | 0 <= k < |d.book.rows| && d.book.rows[k].reference == Some(RefundRef(i));
      && (d.shipments[i].purchase.Some? && d.shipments[i].status == Cancelled ==>
            d.shipments[i].refund.Some? && refunds == {d.shipments[i].refund.value} &&
              d.book.rows[d.shipments[i].refund.value].amount == d.shipments[i].cost)
      && (!(d.shipments[i].purchase.Some? && d.shipments[i].status == Cancelled) ==> refunds == {})
  {
    assert ShipmentOk(d, i);
    forall k | 0 <= k < |d.book.rows| && d.book.rows[k].reference == Some(RefundRef(i))
      ensures d.shipments[i].refund == Some(k)
    {
      assert Explained(d.shipments, d.book.rows[k], k);
    }
  }

  // ---- the service ------------------------------------------------------------------------------------------

  /** The variant, shipment and ledger tables; each method is one transaction. */
  class ShipmentTables {
    var stock: map<nat, nat>
    var shipments: seq<Shipment>
    var book: Book<Ref>

    function Value(): Store
      reads this
    {
      Store(stock, shipments, book)
    }

    method CreateByAdmin(user: UserId, variant: nat, eligible: bool) returns (failure: Option<Failure>)
      modifies this`stock, this`shipments
      ensures var outcome := AdminCreate(old(Value()), user, variant, eligible);
        failure == WhyRefused(outcome) && Value() == Committed(old(Value()), outcome)
    {
      if !eligible {
        return Some(Ineligible);
      }
      if variant !in stock {
        return Some(NotFound);
      }
      if stock[variant] == 0 {
        return Some(OutOfStock);
      }
      stock := stock[variant := stock[variant] - 1];
      shipments := shipments + [Shipment(user, variant, None, 0, None, None, Pending, None, None, None)];
      failure := None;
    }

    method ClaimByPlayer(user: UserId, request: nat, variant: nat, cost: nat,
        eligible: bool) returns (failure: Option<Failure>)
      modifies this
      ensures var outcome := Claim(old(Value()), user, request, variant, cost, eligible);
        failure == WhyRefused(outcome) && Value() == Committed(old(Value()), outcome)
    {
      failure := None;
      if HasRequest(shipments, user, request) {
        return;
      }
      if !eligible || cost == 0 {
        return Some(Ineligible);
      }
      if variant !in stock {
        return Some(NotFound);
      }
      var saved := book;
      var purchase := Record(book, PurchaseEntry(user, request, cost));
      if purchase.Err? {
        return Some(NotRecorded(purchase.error));
      }
      var row := |book.rows|;
      book := purchase.value;
      if stock[variant] == 0 {
        book := saved;
        return Some(OutOfStock);
      }
      stock := stock[variant := stock[variant] - 1];
      shipments := shipments +
        [Shipment(user, variant, Some(request), cost, Some(row), None, Pending, None, None, None)];
    }

    method UpdateStatus(i: nat, status: Status, now: int) returns (failure: Option<Failure>)
      modifies this
      ensures var outcome := Update(old(Value()), i, status, now);
        failure == WhyRefused(outcome) && Value() == Committed(old(Value()), outcome)
    {
      failure := None;
      if i >= |shipments| {
        return Some(NotFound);
      }
      var existing := shipments[i];
      if status == existing.status {
        return;
      }
      if status !in Allowed(existing.status) {
        return Some(BadTransition);
      }
      if status == Cancelled {
        failure := CancelShipment(i, now);
        return;
      }
      var data := existing.(status := status);
      if status == InTransit && existing.shippedAt.None? {
        data := data.(shippedAt := Some(now));
      }
      if status == Delivered && existing.deliveredAt.None? {
        data := data.(deliveredAt := Some(now));
      }
      shipments := shipments[i := data];
    }

    method CancelByOwner(user: UserId, i: nat, now: int) returns (failure: Option<Failure>)
      modifies this
      ensures var outcome := CancelOwned(old(Value()), user, i, now);
        failure == WhyRefused(outcome) && Value() == Committed(old(Value()), outcome)
    {
      failure := None;
      if i < |shipments| && shipments[i].user == user && shipments[i].status == Pending {
        failure := CancelShipment(i, now);
      }
    }

    method CancelShipment(i: nat, now: int) returns (failure: Option<Failure>)
      requires i < |shipments|
      modifies this
      ensures var outcome := CancelAt(old(Value()), i, now);
        failure == WhyRefused(outcome) && Value() == Committed(old(Value()), outcome)
    {
      failure := None;
      var existing, saved := shipments[i], stock;
      var data := existing.(status := Cancelled, cancelledAt := Some(now));
      if existing.variant in stock {
        stock := stock[existing.variant := stock[existing.variant] + 1];
      }
      if existing.purchase.Some? && existing.refund.None? {
        var refund := Record(book, RefundEntry(existing.user, i, existing.cost));
        if refund.Err? {
          stock := saved;
          return Some(NotRecorded(refund.error));
        }
        data := data.(refund := Some(|book.rows|));
        book := refund.value;
      }
      shipments := shipments[i := data];
    }
  }
}
