/** The transactional outbox holds one row for each thing that happened, and no other row. */
module OutboxInvariant {
  import opened Statuses
  import opened EventKeys
  import opened Tables
  import opened Orders
  import opened Recovery

  /** Whether the tables say that the notified thing has happened. */
  ghost predicate Happened(db: Db, e: Event) {
    match e
    case OrderEvent(o, kind) =>
      o < |db.orders| &&
      (match kind
       case Created => true
       case OrderCancelled => db.orders[o].status == Cancelled
       case PaymentSucceeded => Settled(db.orders[o].payment)
       case PaymentRejected => false)
    case OrderStatusEvent(o, s) =>
      o < |db.orders| &&
      (match s
       case Processing => db.orders[o].status in {Processing, Shipped, Delivered}
       case Shipped => db.orders[o].status in {Shipped, Delivered}
       case Delivered => db.orders[o].status == Delivered
       case _ => false)
    case RefundEvent(r, s) =>
      r < |db.refunds| && s in {RefundSucceeded, RefundFailed, RefundManualReview} && db.refunds[r].status == s
    case ReturnEvent(q, s) =>
      q < |db.returnRequests| && Passed(db.returnRequests[q].status, s)
    case PasswordReset(tokenHash) => tokenHash in db.resetTokens
  }

  /** A return now in status `now` has been through status s. */
  predicate Passed(now: ReturnStatus, s: ReturnStatus) {
    match s
    case ReturnRequested => true
    case ReturnApproved => now in {ReturnApproved, ReturnReceived, ReturnRefundPending, ReturnRefunded, ReturnRefundFailed}
    case ReturnReceived => now in {ReturnReceived, ReturnRefundPending, ReturnRefunded, ReturnRefundFailed}
    case ReturnRefundPending => now in {ReturnRefundPending, ReturnRefunded, ReturnRefundFailed}
    case ReturnRejected => now == s
    case ReturnRefunded => now == s
    case ReturnRefundFailed => now == s
  }

  /**
   * The events the tables may no longer tell: whether a cancelled order had reached processing, whether
   * a finished refund had been through manual review, and whether a token that is gone was ever issued.
   */
  ghost predicate Forgotten(db: Db, e: Event) {
    || (e.OrderStatusEvent? && e.status == Processing && e.order < |db.orders| && db.orders[e.order].status == Cancelled)
    || (e.RefundEvent? && e.refundStatus == RefundManualReview && e.refund < |db.refunds|
        && db.refunds[e.refund].status in {RefundSucceeded, RefundFailed})
    || (e.PasswordReset? && e.tokenHash !in db.resetTokens)
  }

  lemma WhatHappenedIsNotForgotten(db: Db, e: Event)
    ensures Happened(db, e) ==> !Forgotten(db, e)
  {
  }

  ghost predicate OutboxInv(db: Db) {
    && (forall k | k in db.outbox :: Key(db.outbox[k]) == k)
    && (!db.notify ==> db.outbox == map[])
    && (db.notify ==> forall e: Event :: !Forgotten(db, e) ==> (Key(e) in db.outbox <==> Happened(db, e)))
  }

  /** Enqueueing adds the one event, because no two events share a key. */
  lemma EnqueueAdds(db: Db, e: Event)
    ensures forall f: Event :: Key(f) in Enqueue(db, e).outbox <==> Key(f) in db.outbox || (db.notify && f == e)
  {
    forall f: Event
      ensures Key(f) in Enqueue(db, e).outbox <==> Key(f) in db.outbox || (db.notify && f == e)
    {
      KeyIsInjective(e, f);
    }
  }

  lemma EnqueueLeavesTables(db: Db, e: Event, f: Event)
    ensures Forgotten(Enqueue(db, e), f) == Forgotten(db, f) && Happened(Enqueue(db, e), f) == Happened(db, f)
  {
  }

  /** A transaction that changes the tables and enqueues exactly what that change makes happen. */
  lemma EnqueueKeeps(before: Db, tables: Db, e: Event)
    requires OutboxInv(before)
    requires tables.outbox == before.outbox && tables.notify == before.notify
    requires Happened(tables, e)
    requires forall f: Event | f != e && !Forgotten(tables, f) ::
               !Forgotten(before, f) && (Happened(tables, f) <==> Happened(before, f))
    ensures OutboxInv(Enqueue(tables, e))
  {
    EnqueueAdds(tables, e);
    var after := Enqueue(tables, e);
    if after.notify {
      forall f: Event | !Forgotten(after, f) ensures Key(f) in after.outbox <==> Happened(after, f) {
        EnqueueLeavesTables(tables, e, f);
      }
    }
  }

  /** A transaction after which the same things have happened. */
  lemma SilentKeeps(before: Db, after: Db)
    requires OutboxInv(before)
    requires after.outbox == before.outbox && after.notify == before.notify
    requires forall f: Event | !Forgotten(after, f) ::
               !Forgotten(before, f) && (Happened(after, f) <==> Happened(before, f))
    ensures OutboxInv(after)
  {
  }

  // ----- the changes transactions make, by table

  ghost predicate SameOrderFacts(before: seq<Order>, after: seq<Order>) {
    && |after| == |before|
    && forall o | 0 <= o < |before| ::
         after[o].status == before[o].status && Settled(after[o].payment) == Settled(before[o].payment)
  }

  ghost predicate SameRefundStatuses(before: seq<Refund>, after: seq<Refund>) {
    |after| == |before| && forall r | 0 <= r < |before| :: after[r].status == before[r].status
  }

  /** A transaction that only touches columns no notification speaks about. */
  lemma QuietKeeps(before: Db, after: Db)
    requires OutboxInv(before)
    requires after.outbox == before.outbox && after.notify == before.notify
    requires SameOrderFacts(before.orders, after.orders)
    requires SameRefundStatuses(before.refunds, after.refunds)
    requires after.returnRequests == before.returnRequests && after.resetTokens == before.resetTokens
    ensures OutboxInv(after)
  {
    SilentKeeps(before, after);
  }

  /** The order of a verified payment becomes settled. */
  lemma SettlingIsNotified(before: Db, tables: Db, o: nat)
    requires OutboxInv(before)
    requires tables.outbox == before.outbox && tables.notify == before.notify
    requires o < |before.orders| && !Settled(before.orders[o].payment)
    requires |tables.orders| == |before.orders| && Settled(tables.orders[o].payment)
    requires tables.orders[o].status == before.orders[o].status
    requires tables.orders == before.orders[o := tables.orders[o]]
    requires tables.refunds == before.refunds && tables.returnRequests == before.returnRequests
    requires tables.resetTokens == before.resetTokens
    ensures OutboxInv(Enqueue(tables, OrderEvent(o, PaymentSucceeded)))
  {
    EnqueueKeeps(before, tables, OrderEvent(o, PaymentSucceeded));
  }

  /** An order is cancelled. */
  lemma CancellingIsNotified(before: Db, tables: Db, o: nat)
    requires OutboxInv(before)
    requires tables.outbox == before.outbox && tables.notify == before.notify
    requires o < |before.orders| && before.orders[o].status in {Pending, Processing}
    requires tables.orders == SetStatus(before.orders, o, Cancelled)
    requires tables.refunds == before.refunds && tables.returnRequests == before.returnRequests
    requires tables.resetTokens == before.resetTokens
    ensures OutboxInv(Enqueue(tables, OrderEvent(o, OrderCancelled)))
  {
    EnqueueKeeps(before, tables, OrderEvent(o, OrderCancelled));
  }

  /** An order is fulfilled one step further. */
  lemma AdvancingIsNotified(before: Db, tables: Db, o: nat, s: OrderStatus)
    requires OutboxInv(before)
    requires tables.outbox == before.outbox && tables.notify == before.notify
    requires o < |before.orders| && s != Cancelled && CanTransition(before.orders[o].status, s)
    requires tables.orders == SetStatus(before.orders, o, s)
    requires tables.refunds == before.refunds && tables.returnRequests == before.returnRequests
    requires tables.resetTokens == before.resetTokens
    ensures OutboxInv(Enqueue(tables, OrderStatusEvent(o, s)))
  {
    EnqueueKeeps(before, tables, OrderStatusEvent(o, s));
  }

  /** A new order appears. */
  lemma PlacingIsNotified(before: Db, tables: Db, order: Order)
    requires OutboxInv(before)
    requires tables.outbox == before.outbox && tables.notify == before.notify
    requires order.status == Pending && order.payment == Unpaid
    requires tables.orders == before.orders + [order]
    requires tables.refunds == before.refunds && tables.returnRequests == before.returnRequests
    requires tables.resetTokens == before.resetTokens
    ensures OutboxInv(Enqueue(tables, OrderEvent(|before.orders|, Created)))
  {
    assert forall o | 0 <= o < |before.orders| :: tables.orders[o] == before.orders[o];
    EnqueueKeeps(before, tables, OrderEvent(|before.orders|, Created));
  }

  /** A refund row appears, which is silent. */
  lemma NewRefundIsSilent(before: Db, after: Db)
    requires OutboxInv(before)
    requires after.outbox == before.outbox && after.notify == before.notify
    requires after.orders == before.orders && after.returnRequests == before.returnRequests
    requires after.resetTokens == before.resetTokens
    requires |after.refunds| == |before.refunds| + 1 && after.refunds[..|before.refunds|] == before.refunds
    requires after.refunds[|before.refunds|].status == RefundPending
    ensures OutboxInv(after)
  {
    assert forall r | 0 <= r < |before.refunds| :: after.refunds[r] == before.refunds[r];
    SilentKeeps(before, after);
  }

  /** What a refund's move makes of everything but its own events: nothing. */
  lemma OtherEventsStay(before: Db, tables: Db, r: nat, s: RefundStatus, f: Event)
    requires SameOrderFacts(before.orders, tables.orders) && tables.returnRequests == before.returnRequests
    requires tables.resetTokens == before.resetTokens
    requires r < |before.refunds| && RefundCanTransition(before.refunds[r].status, s)
    requires tables.refunds == before.refunds[r := before.refunds[r].(status := s)]
    requires f != RefundEvent(r, s) && !Forgotten(tables, f)
    ensures !Forgotten(before, f) && (Happened(tables, f) <==> Happened(before, f))
  {
  }

  /** A refund moves on, and says so except when it merely starts processing. */
  lemma RefundMoveIsNotified(before: Db, tables: Db, r: nat, s: RefundStatus)
    requires OutboxInv(before)
    requires tables.outbox == before.outbox && tables.notify == before.notify
    requires SameOrderFacts(before.orders, tables.orders) && tables.returnRequests == before.returnRequests
    requires tables.resetTokens == before.resetTokens
    requires r < |before.refunds| && RefundCanTransition(before.refunds[r].status, s)
    requires tables.refunds == before.refunds[r := before.refunds[r].(status := s)]
    ensures OutboxInv(if s in {RefundSucceeded, RefundFailed, RefundManualReview}
                      then Enqueue(tables, RefundEvent(r, s)) else tables)
  {
    forall f: Event | f != RefundEvent(r, s) && !Forgotten(tables, f)
      ensures !Forgotten(before, f) && (Happened(tables, f) <==> Happened(before, f))
    {
      OtherEventsStay(before, tables, r, s, f);
    }
    if s in {RefundSucceeded, RefundFailed, RefundManualReview} {
      EnqueueKeeps(before, tables, RefundEvent(r, s));
    } else {
      SilentKeeps(before, tables);
    }
  }

  lemma NewReturnHappens(before: Db, tables: Db, q: Return, f: Event)
    requires q.status == ReturnRequested
    requires tables == before.(returnRequests := before.returnRequests + [q])
    requires f != ReturnEvent(|before.returnRequests|, ReturnRequested)
    ensures Forgotten(before, f) == Forgotten(tables, f) && (Happened(tables, f) <==> Happened(before, f))
  {
  }

  lemma NewReturnIsNotified(before: Db, tables: Db, q: Return)
    requires OutboxInv(before) && q.status == ReturnRequested
    requires tables == before.(returnRequests := before.returnRequests + [q])
    ensures OutboxInv(Enqueue(tables, ReturnEvent(|before.returnRequests|, ReturnRequested)))
  {
    var e := ReturnEvent(|before.returnRequests|, ReturnRequested);
    forall f: Event | f != e
      ensures Forgotten(before, f) == Forgotten(tables, f) && (Happened(tables, f) <==> Happened(before, f))
    {
      NewReturnHappens(before, tables, q, f);
    }
    EnqueueKeeps(before, tables, e);
  }

  lemma ReturnMoveIsNotified(before: Db, tables: Db, q: nat, s: ReturnStatus)
    requires OutboxInv(before)
    requires q < |before.returnRequests| && ReturnCanTransition(before.returnRequests[q].status, s)
    requires tables == before.(returnRequests := before.returnRequests[q := before.returnRequests[q].(status := s)])
    ensures OutboxInv(Enqueue(tables, ReturnEvent(q, s)))
  {
    forall f: Event | f != ReturnEvent(q, s)
      ensures Forgotten(before, f) == Forgotten(tables, f) && (Happened(tables, f) <==> Happened(before, f))
    {
      ReturnMoveHappens(before, tables, q, s, f);
    }
    EnqueueKeeps(before, tables, ReturnEvent(q, s));
  }

  lemma ReturnMoveHappens(before: Db, tables: Db, q: nat, s: ReturnStatus, f: Event)
    requires q < |before.returnRequests| && ReturnCanTransition(before.returnRequests[q].status, s)
    requires tables == before.(returnRequests := before.returnRequests[q := before.returnRequests[q].(status := s)])
    requires f != ReturnEvent(q, s)
    ensures Forgotten(before, f) == Forgotten(tables, f) && (Happened(tables, f) <==> Happened(before, f))
  {
  }

  /** A reset token is stored and its mail queued, while the customer's older tokens disappear. */
  lemma ResetIsNotified(before: Db, user: nat, tokenHash: string)
    requires OutboxInv(before)
    ensures OutboxInv(QueuePasswordReset(before, user, tokenHash).0)
  {
    var (after, reply) := QueuePasswordReset(before, user, tokenHash);
    if reply.Done? {
      EnqueueKeeps(before, before.(resetTokens := after.resetTokens), PasswordReset(tokenHash));
    }
  }

  lemma PurgeIsSilent(before: Db, gone: set<string>)
    requires OutboxInv(before)
    ensures OutboxInv(PurgeResetTokens(before, gone).0)
  {
    SilentKeeps(before, PurgeResetTokens(before, gone).0);
  }

  /** Whatever the tables say has happened has exactly one row, found under its key. */
  lemma ExactlyOneRow(db: Db, e: Event)
    requires OutboxInv(db) && db.notify && Happened(db, e)
    ensures exists k :: k in db.outbox && db.outbox[k] == e
    ensures forall k, l | k in db.outbox && l in db.outbox && db.outbox[k] == e && db.outbox[l] == e :: k == l
  {
    WhatHappenedIsNotForgotten(db, e);
    var k := Key(e);
    assert k in db.outbox;
    KeyIsInjective(db.outbox[k], e);
  }
}
