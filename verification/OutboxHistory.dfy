/** The outbox tells the whole run: a row for each thing that ever happened, remembered or not, and no other row. */
module OutboxHistory {
  import opened Basics
  import opened Statuses
  import opened EventKeys
  import Pricing
  import opened Tables
  import opened Orders
  import opened Payments
  import opened Refunds
  import opened Recovery
  import opened Shop
  import opened PaymentInvariant
  import opened OutboxInvariant
  import opened ShopInvariant
  import opened Evolution

  /** Every row that is new after a step tells of something that is true after it. */
  ghost predicate NewRowsAreTrue(before: Db, after: Db) {
    forall e: Event :: Key(e) in after.outbox && Key(e) !in before.outbox ==> Happened(after, e)
  }

  lemma EnqueuedRowIsTrue(before: Db, tables: Db, e: Event)
    requires tables.outbox == before.outbox && Happened(tables, e)
    ensures NewRowsAreTrue(before, Enqueue(tables, e))
  {
    EnqueueAdds(tables, e);
    EnqueueLeavesTables(tables, e, e);
  }

  // ----- orders

  lemma CancelledRowIsTrue(db: Db, o: nat)
    requires o < |db.orders|
    ensures NewRowsAreTrue(db, CancelOrder(db, o))
  {
    var tables := db.(products := Restored(db.products, db.orders[o].lines),
                      redemptions := Release(db.redemptions, o),
                      orders := SetStatus(db.orders, o, Cancelled));
    EnqueuedRowIsTrue(db, tables, OrderEvent(o, OrderCancelled));
  }

  lemma AdvancedRowIsTrue(db: Db, o: nat, s: OrderStatus)
    requires o < |db.orders| && s in {Processing, Shipped, Delivered}
    ensures NewRowsAreTrue(db, Enqueue(db.(orders := SetStatus(db.orders, o, s)), OrderStatusEvent(o, s)))
  {
    EnqueuedRowIsTrue(db, db.(orders := SetStatus(db.orders, o, s)), OrderStatusEvent(o, s));
  }

  lemma UpdateStatusRowsAreTrue(db: Db, o: nat, s: OrderStatus)
    ensures NewRowsAreTrue(db, UpdateStatus(db, o, s).0)
  {
    if UpdateStatus(db, o, s).1.Done? {
      if s == Cancelled {
        CancelledRowIsTrue(db, o);
      } else {
        AdvancedRowIsTrue(db, o, s);
      }
    }
  }

  lemma CancelOwnRowsAreTrue(db: Db, user: nat, o: nat)
    ensures NewRowsAreTrue(db, CancelOwnOrder(db, user, o).0)
  {
    if CancelOwnOrder(db, user, o).1.Done? {
      CancelledRowIsTrue(db, o);
    }
  }

  /** The tables still say what they said about cancelled orders and about everything else a cancellation leaves. */
  ghost predicate OnlyCancellations(before: Db, after: Db) {
    && |after.orders| == |before.orders|
    && forall o | 0 <= o < |before.orders| ::
         after.orders[o] == before.orders[o] || after.orders[o] == before.orders[o].(status := Cancelled)
  }

  /** New rows of an expiry run: cancellations of orders that are cancelled at its end. */
  lemma {:induction false} ExpiryRowsAreTrue(db: Db, picks: seq<nat>, count: nat)
    requires forall i | 0 <= i < |picks| :: picks[i] < |db.orders|
    ensures var r := CancelEach(db, picks, count);
            r.Some? ==> OnlyCancellations(db, r.value.0) && NewRowsAreTrue(db, r.value.0)
    decreases picks
  {
    if picks != [] {
      var o := picks[0];
      if PaymentBlocksCancellation(db.attempts, o, db.orders[o].payment) {
        ExpiryRowsAreTrue(db, picks[1..], count);
      } else if Restorable(db.products, db.orders[o].lines) {
        var next := CancelOrder(db, o);
        ExpiryRowsAreTrue(next, picks[1..], count + 1);
        EnqueueAdds(next.(outbox := db.outbox), OrderEvent(o, OrderCancelled));
        assert next == Enqueue(next.(outbox := db.outbox), OrderEvent(o, OrderCancelled));
      }
    }
  }

  lemma CheckoutRowsAreTrue(db: Db, user: nat, input: CheckoutInput, ship: Pricing.ShippingConfig, now: int, today: int)
    ensures NewRowsAreTrue(db, CreateFromCart(db, user, input, ship, now, today).0)
  {
    if CreateFromCart(db, user, input, ship, now, today).1.NewRow? {
      var order := CheckoutPlaces(db, user, input, ship, now, today);
      PlacedRowIsTrue(db, order);
    }
  }

  lemma PlacedRowIsTrue(db: Db, order: Order)
    ensures NewRowsAreTrue(db, PlaceOrder(db, order))
  {
    var placed := PlaceOrder(db, order).(outbox := db.outbox);
    assert PlaceOrder(db, order) == Enqueue(placed, OrderEvent(|db.orders|, Created));
    EnqueuedRowIsTrue(db, placed, OrderEvent(|db.orders|, Created));
  }

  // ----- payments, refunds and returns, recovery

  lemma VerifiedRowsAreTrue(db: Db, i: nat, refId: int, code: int)
    requires i < |db.attempts| && db.attempts[i].order < |db.orders|
    ensures NewRowsAreTrue(db, RecordVerified(db, i, refId, code).0)
  {
    var (after, reply) := RecordVerified(db, i, refId, code);
    if reply.Settlement? && reply.finalStatus == AttemptPaid {
      EnqueuedRowIsTrue(db, after.(outbox := db.outbox), OrderEvent(reply.order, PaymentSucceeded));
    }
  }

  lemma FinalizeVerifiedRowsAreTrue(db: Db, g: Gateway, authority: string, refId: int, code: int)
    ensures NewRowsAreTrue(db, FinalizeVerified(db, g, authority, refId, code).0)
  {
    var i := FindAttempt(db.attempts, authority);
    if i.Some? && db.attempts[i.value].order < |db.orders| {
      VerifiedRowsAreTrue(db, i.value, refId, code);
    }
  }

  lemma AttemptRowsAreTrue(db: Db, s: Step)
    requires PaymentInv(db.orders, db.attempts) && IsAttemptStep(s)
    ensures NewRowsAreTrue(db, Next(db, s))
  {
    if s.DoFinalizeVerified? {
      FinalizeVerifiedRowsAreTrue(db, s.gateway, s.authority, s.refId, s.verifiedCode);
      assert Next(db, s) == FinalizeVerified(db, s.gateway, s.authority, s.refId, s.verifiedCode).0;
    } else if s.DoFinalizeFailed? {
      RejectingIsSilent(db, s);
    } else {
      OpeningIsSilent(db, s);
    }
  }

  lemma OpeningIsSilent(db: Db, s: Step)
    requires s.DoCreateAttempt? || s.DoSetAuthority? || s.DoMarkFailed? || s.DoExpireRejected?
    ensures Next(db, s).outbox == db.outbox
  {
  }

  lemma RejectingIsSilent(db: Db, s: Step)
    requires PaymentInv(db.orders, db.attempts) && s.DoFinalizeFailed?
    ensures Next(db, s).outbox == db.outbox
  {
    FinalizeFailedIsSilent(db, s.gateway, s.authority, s.code);
    assert Next(db, s) == FinalizeFailed(db, s.gateway, s.authority, s.code).0;
  }

  lemma UpdateRefundRowsAreTrue(db: Db, r: nat, s: RefundStatus)
    ensures NewRowsAreTrue(db, UpdateRefundStatus(db, r, s).0)
  {
    var (after, reply) := UpdateRefundStatus(db, r, s);
    if reply.Done? && s in {RefundSucceeded, RefundFailed, RefundManualReview} {
      EnqueuedRowIsTrue(db, after.(outbox := db.outbox), RefundEvent(r, s));
    }
  }

  lemma CreateReturnRowsAreTrue(db: Db, o: nat, user: nat)
    ensures NewRowsAreTrue(db, CreateReturn(db, o, user).0)
  {
    var (after, reply) := CreateReturn(db, o, user);
    if reply.NewRow? {
      EnqueuedRowIsTrue(db, after.(outbox := db.outbox), ReturnEvent(|db.returnRequests|, ReturnRequested));
    }
  }

  lemma UpdateReturnRowsAreTrue(db: Db, q: nat, s: ReturnStatus)
    ensures NewRowsAreTrue(db, UpdateReturnStatus(db, q, s).0)
  {
    var (after, reply) := UpdateReturnStatus(db, q, s);
    if reply.Done? {
      EnqueuedRowIsTrue(db, after.(outbox := db.outbox), ReturnEvent(q, s));
    }
  }

  lemma QueueResetRowsAreTrue(db: Db, user: nat, tokenHash: string)
    ensures NewRowsAreTrue(db, QueuePasswordReset(db, user, tokenHash).0)
  {
    var (after, reply) := QueuePasswordReset(db, user, tokenHash);
    if reply.Done? {
      EnqueuedRowIsTrue(db, after.(outbox := db.outbox), PasswordReset(tokenHash));
    }
  }

  // ----- all steps, all runs

  lemma OrderRowsAreTrue(db: Db, s: Step)
    requires IsOrderStep(s)
    ensures NewRowsAreTrue(db, Next(db, s))
  {
    if s.DoCheckout? {
      CheckoutRowsAreTrue(db, s.user, s.input, s.ship, s.now, s.today);
      assert Next(db, s) == CreateFromCart(db, s.user, s.input, s.ship, s.now, s.today).0;
    } else if s.DoUpdateStatus? {
      UpdateStatusRowsAreTrue(db, s.order, s.newStatus);
      assert Next(db, s) == UpdateStatus(db, s.order, s.newStatus).0;
    } else if s.DoCancelOwn? {
      CancelOwnRowsAreTrue(db, s.user, s.order);
      assert Next(db, s) == CancelOwnOrder(db, s.user, s.order).0;
    } else {
      ExpiryRowsAreTrue(db, ExpiryPicks(db.orders, s.seen, s.cutoff, s.locked, 0, EXPIRY_BATCH), 0);
      assert Next(db, s) == ExpireReservations(db, s.cutoff, s.locked, s.seen).0;
    }
  }

  lemma RefundRowsAreTrue(db: Db, s: Step)
    requires IsRefundStep(s)
    ensures NewRowsAreTrue(db, Next(db, s))
  {
    if s.DoCreateRefund? {
      assert Next(db, s).outbox == db.outbox;
    } else if s.DoUpdateRefund? {
      UpdateRefundRowsAreTrue(db, s.refund, s.refundStatus);
      assert Next(db, s) == UpdateRefundStatus(db, s.refund, s.refundStatus).0;
    } else if s.DoCreateReturn? {
      CreateReturnRowsAreTrue(db, s.order, s.user);
      assert Next(db, s) == CreateReturn(db, s.order, s.user).0;
    } else {
      UpdateReturnRowsAreTrue(db, s.returnId, s.returnStatus);
      assert Next(db, s) == UpdateReturnStatus(db, s.returnId, s.returnStatus).0;
    }
  }

  lemma RecoveryRowsAreTrue(db: Db, s: Step)
    requires IsRecoveryStep(s)
    ensures NewRowsAreTrue(db, Next(db, s))
  {
    if s.DoQueuePasswordReset? {
      QueueResetRowsAreTrue(db, s.user, s.tokenHash);
      assert Next(db, s) == QueuePasswordReset(db, s.user, s.tokenHash).0;
    } else {
      assert Next(db, s).outbox == db.outbox;
    }
  }

  lemma StepRowsAreTrue(db: Db, s: Step)
    requires Inv(db)
    ensures NewRowsAreTrue(db, Next(db, s))
  {
    StepKinds(s);
    if IsCatalogStep(s) {
      CatalogStepLeavesOrders(db, s);
    } else if IsAttemptStep(s) {
      AttemptRowsAreTrue(db, s);
    } else if IsRefundStep(s) {
      RefundRowsAreTrue(db, s);
    } else if IsRecoveryStep(s) {
      RecoveryRowsAreTrue(db, s);
    } else {
      OrderRowsAreTrue(db, s);
    }
  }

  /** A step adds a row for an event exactly when the event is first true after it. */
  lemma RowsTellTheStep(db: Db, s: Step, e: Event)
    requires Inv(db) && db.notify
    ensures Next(db, s).notify
    ensures Key(e) in Next(db, s).outbox <==> Key(e) in db.outbox || Happened(Next(db, s), e)
  {
    StepEvolves(db, s);
    StepRowsAreTrue(db, s);
    StepKeepsInv(db, s);
    WhatHappenedIsNotForgotten(Next(db, s), e);
  }

  /** Now or at some earlier moment of the run, the tables said that e had happened. */
  ghost predicate HappenedDuring(db: Db, steps: seq<Step>, e: Event) {
    Happened(Run(db, steps), e) || (steps != [] && HappenedDuring(db, steps[..|steps| - 1], e))
  }

  /**
   * After every run with notifications configured, an event has a row if and only if it happened during
   * the run - also when the tables no longer tell, as for the processing of an order cancelled since.
   */
  lemma {:induction false} RowsTellTheRun(steps: seq<Step>, e: Event)
    ensures Inv(Run(EmptyDb(true), steps)) && Run(EmptyDb(true), steps).notify
    ensures Key(e) in Run(EmptyDb(true), steps).outbox <==> HappenedDuring(EmptyDb(true), steps, e)
  {
    if steps == [] {
      InitialInv(true);
    } else {
      var init, last := steps[..|steps| - 1], steps[|steps| - 1];
      RowsTellTheRun(init, e);
      RowsTellTheStep(Run(EmptyDb(true), init), last, e);
      StepKeepsInv(Run(EmptyDb(true), init), last);
    }
  }
}
