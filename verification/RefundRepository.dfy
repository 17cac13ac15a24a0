/** The refund and return transactions as they run on the tables. */
module RefundRepository {
  import opened Basics
  import opened Statuses
  import opened EventKeys
  import opened Tables
  import opened Orders
  import opened Refunds
  import opened PaymentInvariant
  import opened ShopInvariant
  import opened Database

  class RefundRepository {
    const db: Database

    constructor (db: Database)
      ensures this.db == db
    {
      this.db := db;
    }

    method Create(o: nat, returnRequest: Option<nat>, amount: int, payMethod: PaymentMethod) returns (reply: Reply)
      requires db.Valid()
      modifies db
      ensures db.Valid()
      ensures (db.Snapshot(), reply) == CreateRefund(old(db.Snapshot()), o, returnRequest, amount, payMethod)
    {
      CreateRefundKeepsInv(db.Snapshot(), o, returnRequest, amount, payMethod);
      SettledOrdersAreNotCancelled(db.Snapshot());
      var eligibility := CheckRefundEligibility(db.Snapshot(), o);
      if eligibility.Some? {
        return Rejected(eligibility.value);
      }
      // The same check again, now under the lock of the order's row: only another transaction in
      // between could make it differ, and then the call changes nothing.
      if db.orders[o].payment != Paid {
        assert false;
      }
      // The CHECK on the amount, the unique order and the foreign key of the return request.
      if amount <= 0 || HasRefund(db.refunds, o)
         || (returnRequest.Some? && returnRequest.value >= |db.returnRequests|) {
        return Rejected(DatabaseError);
      }
      reply := NewRow(|db.refunds|);
      db.refunds := db.refunds + [Refund(o, returnRequest, amount, payMethod, RefundPending)];
    }

    lemma SettledOrdersAreNotCancelled(tables: Db)
      requires Inv(tables)
      ensures forall o | 0 <= o < |tables.orders| ::
                tables.orders[o].status == Cancelled ==> !Settled(tables.orders[o].payment)
    {
      forall o | 0 <= o < |tables.orders| && tables.orders[o].status == Cancelled
        ensures !Settled(tables.orders[o].payment)
      {
        CancelledOrderIsClosed(tables.orders, tables.attempts, o);
      }
    }

    method UpdateStatus(r: nat, newStatus: RefundStatus) returns (reply: Reply)
      requires db.Valid()
      modifies db
      ensures db.Valid()
      ensures (db.Snapshot(), reply) == UpdateRefundStatus(old(db.Snapshot()), r, newStatus)
    {
      UpdateRefundKeepsInv(db.Snapshot(), r, newStatus);
      if r >= |db.refunds| {
        return Rejected(RefundNotFound);
      }
      var refund := db.refunds[r];
      if !RefundCanTransition(refund.status, newStatus) {
        return Rejected(InvalidTransition);
      }
      db.refunds := db.refunds[r := refund.(status := newStatus)];
      if newStatus == RefundSucceeded && refund.order < |db.orders| && db.orders[refund.order].payment == Paid {
        db.orders := db.orders[refund.order := db.orders[refund.order].(payment := Refunded)];
      }
      if newStatus in {RefundSucceeded, RefundFailed, RefundManualReview} {
        db.EnqueueTx(RefundEvent(r, newStatus));
      }
      reply := Done;
    }
  }

  class ReturnRepository {
    const db: Database

    constructor (db: Database)
      ensures this.db == db
    {
      this.db := db;
    }

    method CreateRequest(o: nat, user: nat) returns (reply: Reply)
      requires db.Valid()
      modifies db
      ensures db.Valid()
      ensures (db.Snapshot(), reply) == CreateReturn(old(db.Snapshot()), o, user)
    {
      CreateReturnKeepsInv(db.Snapshot(), o, user);
      if o >= |db.orders| || db.orders[o].user != user {
        return Rejected(ReturnNotFound);
      }
      if db.orders[o].status != Delivered || db.orders[o].payment != Paid {
        return Rejected(ReturnNotEligible);
      }
      if HasReturn(db.returnRequests, o) {
        return Rejected(ReturnExists);
      }
      var q := |db.returnRequests|;
      db.returnRequests := db.returnRequests + [Return(o, user, ReturnRequested)];
      db.EnqueueTx(ReturnEvent(q, ReturnRequested));
      reply := NewRow(q);
    }

    method UpdateStatus(q: nat, newStatus: ReturnStatus) returns (reply: Reply)
      requires db.Valid()
      modifies db
      ensures db.Valid()
      ensures (db.Snapshot(), reply) == UpdateReturnStatus(old(db.Snapshot()), q, newStatus)
    {
      UpdateReturnKeepsInv(db.Snapshot(), q, newStatus);
      if q >= |db.returnRequests| {
        return Rejected(ReturnNotFound);
      }
      var current := db.returnRequests[q];
      if !ReturnCanTransition(current.status, newStatus) {
        return Rejected(InvalidTransition);
      }
      if newStatus == ReturnRefunded && !HasSucceededRefund(db.refunds, current.order) {
        return Rejected(InvalidTransition);
      }
      db.returnRequests := db.returnRequests[q := current.(status := newStatus)];
      db.EnqueueTx(ReturnEvent(q, newStatus));
      reply := Done;
    }
  }
}
