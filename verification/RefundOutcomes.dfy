/** When returns and refunds move, and what moves with them. */
module RefundOutcomes {
  import opened Basics
  import opened Statuses
  import opened Tables
  import opened Refunds
  import opened Recovery

  /** Pending refunds start processing or end without success; processing ends; a person decides what is under review. */
  predicate RefundMoves(from: RefundStatus, to: RefundStatus) {
    || (from == RefundPending && to in {RefundProcessing, RefundFailed, RefundManualReview})
    || (from == RefundProcessing && to in {RefundSucceeded, RefundFailed, RefundManualReview})
    || (from == RefundManualReview && to in {RefundSucceeded, RefundFailed})
  }

  /** A refund moves exactly along these steps; when it succeeds, its paid order becomes refunded, and nothing else changes. */
  lemma UpdateRefundOutcome(db: Db, r: nat, s: RefundStatus)
    ensures var (after, reply) := UpdateRefundStatus(db, r, s);
            && (reply == Rejected(RefundNotFound) <==> r >= |db.refunds|)
            && (reply == Rejected(InvalidTransition) <==> r < |db.refunds| && !RefundMoves(db.refunds[r].status, s))
            && (reply == Done <==> r < |db.refunds| && RefundMoves(db.refunds[r].status, s))
            && (reply == Done ==>
                 && var o := db.refunds[r].order;
                 && after.refunds == db.refunds[r := db.refunds[r].(status := s)]
                 && after.orders == (if s == RefundSucceeded && o < |db.orders| && db.orders[o].payment == Paid
                                     then db.orders[o := db.orders[o].(payment := Refunded)] else db.orders)
                 && after == db.(refunds := after.refunds, orders := after.orders, outbox := after.outbox))
            && (reply != Done ==> after == db)
  {
  }

  /** Why no refund is created; the check without the lock also refuses a paid order that is cancelled. */
  lemma RefundRefusals(db: Db, o: nat, returnRequest: Option<nat>, amount: int, payMethod: PaymentMethod)
    ensures var (after, reply) := CreateRefund(db, o, returnRequest, amount, payMethod);
            var early := CheckRefundEligibility(db, o);
            var taken := exists r :: 0 <= r < |db.refunds| && db.refunds[r].order == o;
            var sound := amount >= 1 && !taken && (returnRequest.Some? ==> returnRequest.value < |db.returnRequests|);
            && (reply == Rejected(RefundNotFound) <==> o >= |db.orders|) && (early == Some(RefundNotFound) <==> o >= |db.orders|)
            && (o < |db.orders| ==>
                 var payment := db.orders[o].payment;
                 && (reply == Rejected(AlreadyRefunded) <==> payment == Refunded)
                 && (early == Some(AlreadyRefunded) <==> payment == Refunded)
                 && (reply == Rejected(RefundNotEligible) <==> payment in {Unpaid, PaymentFailed})
                 && (early == Some(RefundNotEligible) <==>
                      payment in {Unpaid, PaymentFailed} || (payment == Paid && db.orders[o].status == Cancelled))
                 && (early.None? <==> payment == Paid && db.orders[o].status != Cancelled)
                 && (reply == Rejected(DatabaseError) <==> payment == Paid && !sound)
                 && (reply == NewRow(|db.refunds|) <==> payment == Paid && sound))
            && (if reply.NewRow?
                then after == db.(refunds := db.refunds + [Refund(o, returnRequest, amount, payMethod, RefundPending)])
                else after == db)
  {
  }

  /** A customer can return exactly an order of their own that is delivered and paid and has no return yet. */
  lemma CreateReturnOutcome(db: Db, o: nat, user: nat)
    ensures var (after, reply) := CreateReturn(db, o, user);
            && (reply == Rejected(ReturnNotFound) <==> o >= |db.orders| || db.orders[o].user != user)
            && (o < |db.orders| && db.orders[o].user == user ==>
                 var eligible := db.orders[o].status == Delivered && db.orders[o].payment == Paid;
                 var taken := exists q :: 0 <= q < |db.returnRequests| && db.returnRequests[q].order == o;
                 && (reply == Rejected(ReturnNotEligible) <==> !eligible)
                 && (reply == Rejected(ReturnExists) <==> eligible && taken)
                 && (reply == NewRow(|db.returnRequests|) <==> eligible && !taken))
            && (if reply.NewRow?
                then after == db.(returnRequests := db.returnRequests + [Return(o, user, ReturnRequested)],
                                  outbox := after.outbox)
                else after == db)
  {
  }

  predicate ReturnMoves(from: ReturnStatus, to: ReturnStatus) {
    || (from == ReturnRequested && (to == ReturnApproved || to == ReturnRejected))
    || (from == ReturnApproved && to == ReturnReceived)
    || (from == ReturnReceived && to == ReturnRefundPending)
    || (from == ReturnRefundPending && (to == ReturnRefunded || to == ReturnRefundFailed))
  }

  /** A return moves exactly along these steps, and to refunded only when a refund of its order has succeeded. */
  lemma UpdateReturnOutcome(db: Db, q: nat, s: ReturnStatus)
    ensures var (after, reply) := UpdateReturnStatus(db, q, s);
            && (reply == Rejected(ReturnNotFound) <==> q >= |db.returnRequests|)
            && (q < |db.returnRequests| ==>
                 (reply == Done <==>
                   && ReturnMoves(db.returnRequests[q].status, s)
                   && (s == ReturnRefunded ==>
                        exists r :: 0 <= r < |db.refunds| && db.refunds[r].order == db.returnRequests[q].order
                                    && db.refunds[r].status == RefundSucceeded)))
            && (q < |db.returnRequests| && reply != Done ==> reply == Rejected(InvalidTransition))
            && (if reply == Done
                then after == db.(returnRequests := db.returnRequests[q := db.returnRequests[q].(status := s)],
                                  outbox := after.outbox)
                else after == db)
  {
  }

  /** A customer's reset leaves exactly the new token of theirs, and the tokens of everybody else. */
  lemma PasswordResetOutcome(db: Db, user: nat, tokenHash: string)
    ensures var (after, reply) := QueuePasswordReset(db, user, tokenHash);
            && (reply == Done <==> db.notify && (tokenHash in db.resetTokens ==> db.resetTokens[tokenHash] == user))
            && (reply == Done ==>
                 forall h: string ::
                   && (h in after.resetTokens <==> h == tokenHash || (h in db.resetTokens && db.resetTokens[h] != user))
                   && (h in after.resetTokens ==>
                        after.resetTokens[h] == if h == tokenHash then user else db.resetTokens[h]))
            && (reply != Done ==> after == db && reply == Rejected(if db.notify then DatabaseError else RecoveryUnavailable))
  {
  }

  /** Maintenance drops the given tokens and no others. */
  lemma PurgeOutcome(db: Db, gone: set<string>)
    ensures var (after, reply) := PurgeResetTokens(db, gone);
            && reply == Done && after == db.(resetTokens := after.resetTokens)
            && forall h: string ::
                 && (h in after.resetTokens <==> h in db.resetTokens && h !in gone)
                 && (h in after.resetTokens ==> after.resetTokens[h] == db.resetTokens[h])
  {
  }
}
