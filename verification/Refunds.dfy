/** Return requests and refunds, and their coupling to an order's payment status. */
module Refunds {
  import opened Basics
  import opened Statuses
  import opened EventKeys
  import opened Tables
  import opened Orders

  predicate HasSucceededRefund(refunds: seq<Refund>, o: nat) {
    exists r | 0 <= r < |refunds| :: refunds[r].order == o && refunds[r].status == RefundSucceeded
  }

  predicate HasRefund(refunds: seq<Refund>, o: nat) {
    exists r | 0 <= r < |refunds| :: refunds[r].order == o
  }

  predicate HasReturn(returnRequests: seq<Return>, o: nat) {
    exists r | 0 <= r < |returnRequests| :: returnRequests[r].order == o
  }

  /** The unlocked check that runs before the refund transaction. */
  function CheckRefundEligibility(db: Db, o: nat): Option<Error> {
    if o >= |db.orders| then Some(RefundNotFound)
    else if db.orders[o].payment != Paid then
      Some(if db.orders[o].payment == Refunded then AlreadyRefunded else RefundNotEligible)
    else if db.orders[o].status == Cancelled then Some(RefundNotEligible)
    else None
  }

  /** The refund transaction itself, which repeats only the payment check under the order's lock. */
  function CreateRefund(db: Db, o: nat, returnRequest: Option<nat>, amount: int, payMethod: PaymentMethod)
    : (result: (Db, Reply))
    ensures OnlyRefundsDiffer(db, result.0)
  {
    if o >= |db.orders| then (db, Rejected(RefundNotFound))
    else if db.orders[o].payment != Paid then
      (db, Rejected(if db.orders[o].payment == Refunded then AlreadyRefunded else RefundNotEligible))
    else if amount <= 0 || HasRefund(db.refunds, o)
            || (returnRequest.Some? && returnRequest.value >= |db.returnRequests|) then
      (db, Rejected(DatabaseError))
    else
      (db.(refunds := db.refunds + [Refund(o, returnRequest, amount, payMethod, RefundPending)]), NewRow(|db.refunds|))
  }

  /** A refund that succeeds makes its paid order refunded. */
  function Coupled(orders: seq<Order>, o: nat, newStatus: RefundStatus): seq<Order> {
    if newStatus == RefundSucceeded && o < |orders| && orders[o].payment == Paid
    then orders[o := orders[o].(payment := Refunded)]
    else orders
  }

  function UpdateRefundStatus(db: Db, r: nat, newStatus: RefundStatus): (result: (Db, Reply))
    ensures OnlyRefundsDiffer(db, result.0)
  {
    if r >= |db.refunds| then (db, Rejected(RefundNotFound))
    else if !RefundCanTransition(db.refunds[r].status, newStatus) then (db, Rejected(InvalidTransition))
    else
      var coupled := db.(refunds := db.refunds[r := db.refunds[r].(status := newStatus)],
                         orders := Coupled(db.orders, db.refunds[r].order, newStatus));
      (if newStatus in {RefundSucceeded, RefundFailed, RefundManualReview}
       then Enqueue(coupled, RefundEvent(r, newStatus)) else coupled,
       Done)
  }

  function CreateReturn(db: Db, o: nat, user: nat): (result: (Db, Reply))
    ensures OnlyRefundsDiffer(db, result.0)
  {
    if o >= |db.orders| || db.orders[o].user != user then (db, Rejected(ReturnNotFound))
    else if db.orders[o].status != Delivered || db.orders[o].payment != Paid then (db, Rejected(ReturnNotEligible))
    else if HasReturn(db.returnRequests, o) then (db, Rejected(ReturnExists))
    else
      (Enqueue(db.(returnRequests := db.returnRequests + [Return(o, user, ReturnRequested)]),
               ReturnEvent(|db.returnRequests|, ReturnRequested)),
       NewRow(|db.returnRequests|))
  }

  function UpdateReturnStatus(db: Db, r: nat, newStatus: ReturnStatus): (result: (Db, Reply))
    ensures OnlyRefundsDiffer(db, result.0)
  {
    if r >= |db.returnRequests| then (db, Rejected(ReturnNotFound))
    else
      var current := db.returnRequests[r];
      if !ReturnCanTransition(current.status, newStatus) then (db, Rejected(InvalidTransition))
      else if newStatus == ReturnRefunded && !HasSucceededRefund(db.refunds, current.order) then
        (db, Rejected(InvalidTransition))
      else
        (Enqueue(db.(returnRequests := db.returnRequests[r := current.(status := newStatus)]),
                 ReturnEvent(r, newStatus)),
         Done)
  }
}
