/**
 * The only handler that creates refunds asks for an amount of zero, which the database refuses: as
 * long as nothing else creates them, no refund ever exists and nothing is ever refunded.
 */
module DirectRefunds {
  import opened Basics
  import opened Statuses
  import opened Tables
  import opened Refunds
  import opened Shop
  import opened LedgerInvariant
  import opened ShopInvariant
  import opened Processes
  import opened ProcessTheorems

  /** What the handler asks for is refused whatever the state of the order, and changes nothing. */
  lemma DirectRefundIsRefused(db: Db, o: nat, payMethod: PaymentMethod)
    ensures var (after, reply) := CreateRefund(db, o, None, 0, payMethod);
            && after == db
            && reply == Rejected(if o >= |db.orders| then RefundNotFound
                                 else if db.orders[o].payment == Paid then DatabaseError
                                 else if db.orders[o].payment == Refunded then AlreadyRefunded
                                 else RefundNotEligible)
  {
  }

  /** If this step creates a refund, then as the handler does. */
  predicate IsAsShipped(s: Step) {
    s.DoCreateRefund? ==> s.returnRequest == None && s.amount == 0
  }

  lemma RefundsStayAway(db: Db, s: Step)
    requires db.refunds == [] && IsAsShipped(s)
    ensures Next(db, s).refunds == []
  {
    if IsCatalogStep(s) {
      CatalogStepLeavesOrders(db, s);
    } else if s.DoCreateRefund? {
      DirectRefundIsRefused(db, s.order, s.payMethod);
      assert Next(db, s) == CreateRefund(db, s.order, s.returnRequest, s.amount, s.payMethod).0;
    } else if s.DoUpdateRefund? {
      assert Next(db, s) == UpdateRefundStatus(db, s.refund, s.refundStatus).0;
    }
  }

  /** Without refunds, no order is refunded and no return either. */
  lemma NothingIsRefunded(db: Db)
    requires RefundInv(db.orders, db.refunds, db.returnRequests) && db.refunds == []
    ensures forall o | 0 <= o < |db.orders| :: db.orders[o].payment != Refunded
    ensures forall q | 0 <= q < |db.returnRequests| :: db.returnRequests[q].status != ReturnRefunded
  {
    forall q | 0 <= q < |db.returnRequests| ensures db.returnRequests[q].status != ReturnRefunded {
      assert ReturnRowInv(db.orders, db.refunds, db.returnRequests[q]);
    }
  }

  /** Whatever else happens in the shop, no refund row ever appears. */
  lemma {:induction false} NoRefundEverExists(notify: bool, steps: seq<Step>)
    requires forall s | s in steps :: IsAsShipped(s)
    ensures var db := Run(EmptyDb(notify), steps);
            && db.refunds == []
            && (forall o | 0 <= o < |db.orders| :: db.orders[o].payment != Refunded)
            && (forall q | 0 <= q < |db.returnRequests| :: db.returnRequests[q].status != ReturnRefunded)
  {
    InitialInv(notify);
    RunKeepsInv(EmptyDb(notify), steps);
    if steps != [] {
      NoRefundEverExists(notify, steps[..|steps| - 1]);
      RefundsStayAway(Run(EmptyDb(notify), steps[..|steps| - 1]), steps[|steps| - 1]);
    }
    NothingIsRefunded(Run(EmptyDb(notify), steps));
  }

  lemma ProcessesCreateNoRefund(sys: System, h: Happening)
    requires Allowed(sys, h) && sys.db.refunds == [] && (h.Commits? ==> IsAsShipped(h.step))
    ensures Happen(sys, h).db.refunds == []
  {
    if h.Commits? {
      RefundsStayAway(sys.db, h.step);
    } else if h.Advances? && Transaction(sys.processes[h.k]).Some? {
      RefundsStayAway(sys.db, Transaction(sys.processes[h.k]).value);
    }
  }

  lemma {:induction false} NoSystemHasRefunds(sys: System, notify: bool, happenings: seq<Happening>)
    requires ReachedBy(sys, notify, happenings)
    requires forall h | h in happenings && h.Commits? :: IsAsShipped(h.step)
    ensures sys.db.refunds == []
    decreases |happenings|
  {
    if happenings != [] {
      var init, last := happenings[..|happenings| - 1], happenings[|happenings| - 1];
      var before :| ReachedBy(before, notify, init) && Allowed(before, last) && sys == Happen(before, last);
      NoSystemHasRefunds(before, notify, init);
      ProcessesCreateNoRefund(before, last);
    }
  }

  /** And no refund handler ever asks the provider to pay anything out. */
  lemma RefundProviderIsNeverCalled(sys: System, notify: bool, happenings: seq<Happening>, c: Call)
    requires ReachedBy(sys, notify, happenings) && c in sys.log
    requires forall h | h in happenings && h.Commits? :: IsAsShipped(h.step)
    ensures !c.RefundCall?
  {
    NoSystemHasRefunds(sys, notify, happenings);
    if c.RefundCall? {
      RefundCallsAreDue(sys, c);
      assert false;
    }
  }
}
