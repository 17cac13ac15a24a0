/** The shop's promises over whole runs: any transactions, in any order, with any arguments. */
module ShopTheorems {
  import opened Basics
  import opened Statuses
  import opened EventKeys
  import opened Pricing
  import opened Tables
  import opened CartMerge
  import opened Orders
  import opened Payments
  import opened Refunds
  import opened Catalog
  import opened Shop
  import opened PaymentInvariant
  import opened StockInvariant
  import opened LedgerInvariant
  import opened OutboxInvariant
  import opened ShopInvariant
  import opened Evolution
  import opened OutboxHistory

  // ----- settlement

  /** Paid or refunded exactly with one paid attempt, for the order's total in IRR. */
  lemma SettlementIsUnique(db: Db, o: nat)
    requires Reachable(db) && o < |db.orders|
    ensures Settled(db.orders[o].payment) <==> HasPaidAttempt(db.attempts, o)
    ensures forall i, j | 0 <= i < |db.attempts| && 0 <= j < |db.attempts|
                          && db.attempts[i].order == o && db.attempts[i].status == AttemptPaid
                          && db.attempts[j].order == o && db.attempts[j].status == AttemptPaid :: i == j
    ensures forall i | 0 <= i < |db.attempts| && db.attempts[i].order == o ::
              db.attempts[i].amount == db.orders[o].total && db.attempts[i].currency == "IRR"
  {
    ReachableKeepsInv(db);
    SettledExactlyWhenOnePaidAttempt(db.orders, db.attempts, o);
    forall i | 0 <= i < |db.attempts| && db.attempts[i].order == o
      ensures db.attempts[i].amount == db.orders[o].total && db.attempts[i].currency == "IRR"
    {
      assert AttemptInv(db.orders, db.attempts[i]);
    }
  }

  lemma PaidReferencesAreUnique(db: Db, i: nat, j: nat)
    requires Reachable(db) && i < |db.attempts| && j < |db.attempts|
    requires db.attempts[i].status == AttemptPaid && db.attempts[j].status == AttemptPaid
    requires db.attempts[i].refId.Some? && SameReference(db.attempts[j], db.attempts[i], db.attempts[i].refId.value)
    ensures i == j
  {
    ReachableKeepsInv(db);
    var a, b := db.attempts[i], db.attempts[j];
    assert i != j ==> Compatible(b, a);
  }

  /** Pending, paid, or failed with an authority: an order never has two such attempts. */
  predicate IsLive(a: Attempt) {
    Live(a) || (a.status == AttemptFailed && a.authority.Some?)
  }

  lemma AtMostOneLiveAttempt(db: Db, i: nat, j: nat)
    requires Reachable(db) && i < |db.attempts| && j < |db.attempts|
    requires IsLive(db.attempts[i]) && IsLive(db.attempts[j]) && db.attempts[i].order == db.attempts[j].order
    ensures i == j
  {
    ReachableKeepsInv(db);
    var a, b := db.attempts[i], db.attempts[j];
    assert AttemptInv(db.orders, a) && AttemptInv(db.orders, b);
    assert i != j ==> Compatible(a, b);
  }

  /** A verified outcome is never rewritten, and a success verified after expiry needs reconciliation. */
  lemma VerifiedOutcomesArePermanent(db: Db, steps: seq<Step>, i: nat)
    requires Reachable(db) && i < |db.attempts|
    ensures var later := Run(db, steps).attempts;
            && i < |later| && TriggerAccepts(db.attempts[i], later[i])
            && (db.attempts[i].status == AttemptExpired && Verified(later[i].status) ==>
                 later[i].status == AttemptReconciliation)
  {
    ReachableKeepsInv(db);
    RunEvolves(db, steps);
    assert AttemptEvolves(db.attempts[i], Run(db, steps).attempts[i]);
  }

  lemma OtherStepsLeaveAttempts(db: Db, s: Step)
    requires !IsAttemptStep(s)
    ensures Next(db, s).attempts == db.attempts
  {
    if IsCatalogStep(s) {
      CatalogStepLeavesOrders(db, s);
    }
  }

  lemma OnlyExpiryExpires(db: Db, s: Step, i: nat)
    requires i < |db.attempts| && db.attempts[i].status == AttemptPending
    requires IsAttemptStep(s) && i < |Next(db, s).attempts| && Next(db, s).attempts[i].status == AttemptExpired
    ensures s.DoExpireRejected? && s.attempt == i
    ensures db.attempts[i].code == Some(CODE_NOT_PAID) && db.attempts[i].createdAt <= s.cutoff
  {
    if s.DoFinalizeVerified? {
      VerdictsDoNotExpire(db, s.gateway, s.authority, s.refId, s.verifiedCode, i);
    }
  }

  lemma VerdictsDoNotExpire(db: Db, g: Gateway, authority: string, refId: int, code: int, i: nat)
    requires i < |db.attempts| && db.attempts[i].status == AttemptPending
    ensures FinalizeVerified(db, g, authority, refId, code).0.attempts[i].status != AttemptExpired
  {
  }

  /** The only transaction that stops a stored authority from blocking its order is an expiry after code -51. */
  lemma AuthorityBlocksUntilRejected(db: Db, s: Step, i: nat)
    requires Reachable(db) && i < |db.attempts|
    requires db.attempts[i].authority.Some? && Blocks(db.attempts[i])
    requires i < |Next(db, s).attempts| && !Blocks(Next(db, s).attempts[i])
    ensures s.DoExpireRejected? && s.attempt == i
    ensures db.attempts[i].code == Some(CODE_NOT_PAID) && db.attempts[i].createdAt <= s.cutoff
  {
    ReachableKeepsInv(db);
    StepEvolves(db, s);
    var a, b := db.attempts[i], Next(db, s).attempts[i];
    assert AttemptEvolves(a, b);
    assert AttemptInv(db.orders, a);
    if IsAttemptStep(s) {
      OnlyExpiryExpires(db, s, i);
    } else {
      OtherStepsLeaveAttempts(db, s);
    }
  }

  // ----- cancellation

  /**
   * Once cancelled, always cancelled: never paid, never refunded, without pending or paid attempts,
   * and closed to new ones, whatever arrives late.
   */
  lemma CancelledStaysClosed(db: Db, steps: seq<Step>, o: nat)
    requires Reachable(db) && o < |db.orders| && db.orders[o].status == Cancelled
    ensures var later := Run(db, steps);
            && o < |later.orders| && later.orders[o].status == Cancelled && !Settled(later.orders[o].payment)
            && (forall i | 0 <= i < |later.attempts| && later.attempts[i].order == o ::
                  later.attempts[i].status in {AttemptFailed, AttemptExpired, AttemptReconciliation})
            && (forall g, user, now :: CreateAttempt(later, g, user, o, now).1.Rejected?)
  {
    ReachableKeepsInv(db);
    RunKeepsInv(db, steps);
    RunEvolves(db, steps);
    var later := Run(db, steps);
    assert OrderEvolves(db.orders[o], later.orders[o]);
    CancelledOrderIsClosed(later.orders, later.attempts, o);
  }

  /** Once settled, always settled, and no cancellation path can touch the order any more. */
  lemma SettledIsNeverCancelled(db: Db, steps: seq<Step>, o: nat)
    requires Reachable(db) && o < |db.orders| && Settled(db.orders[o].payment)
    ensures var later := Run(db, steps);
            && o < |later.orders| && Settled(later.orders[o].payment) && later.orders[o].status != Cancelled
            && UpdateStatus(later, o, Cancelled).0 == later
            && (forall user :: CancelOwnOrder(later, user, o).0 == later)
            && (forall seen, cutoff :: !Expirable(later.orders, seen, o, cutoff))
  {
    ReachableKeepsInv(db);
    RunEvolves(db, steps);
    CancelledIsNotSettled(db, o);
    assert OrderEvolves(db.orders[o], Run(db, steps).orders[o]);
  }

  /** A gateway order is fulfilled only when settled; any other order past pending was never tried online. */
  lemma FulfilledOrdersAreSettled(db: Db, o: nat)
    requires Reachable(db) && o < |db.orders|
    ensures db.orders[o].payMethod == ZarinPal && IsFulfillment(db.orders[o].status) ==> Settled(db.orders[o].payment)
    ensures db.orders[o].payMethod == Manual ==>
              !Settled(db.orders[o].payment) && forall i | 0 <= i < |db.attempts| :: db.attempts[i].order != o
  {
    ReachableKeepsInv(db);
    assert OrderInv(db.orders[o], HasPaidAttempt(db.attempts, o));
    forall i | 0 <= i < |db.attempts| && db.attempts[i].order == o ensures db.orders[o].payMethod == ZarinPal {
      assert AttemptInv(db.orders, db.attempts[i]);
    }
  }

  // ----- stock

  lemma StockIsConserved(db: Db, p: nat)
    requires Reachable(db) && p < |db.products|
    ensures db.products[p].stock + Held(db.orders, p) == db.products[p].initialStock + Adjusted(db.adjustments, p)
    ensures 0 <= db.products[p].stock <= MAX_INT32
  {
    ReachableKeepsInv(db);
    assert Conserved(db.products, db.orders, db.adjustments, p);
  }

  // ----- money

  /** An order's total is what was agreed at checkout and stays so; it is exact if and only if it fits. */
  lemma TotalsAreExactForLife(db: Db, steps: seq<Step>, o: nat)
    requires Reachable(db) && o < |db.orders|
    ensures var (before, later) := (db.orders[o], Run(db, steps).orders);
            && o < |later|
            && (later[o].total, later[o].lines, later[o].discount, later[o].shippingFee)
               == (before.total, before.lines, before.discount, before.shippingFee)
    ensures var x := db.orders[o];
            && 0 <= x.discount <= x.itemsSubtotal
            && (x.total == ExactSubtotal(x.lines) - x.discount + x.shippingFee
                <==> FitsInt64(ExactSubtotal(x.lines) - x.discount + x.shippingFee))
  {
    ReachableKeepsInv(db);
    RunEvolves(db, steps);
    assert OrderEvolves(db.orders[o], Run(db, steps).orders[o]);
    var x := db.orders[o];
    assert MoneyInv(x);
    TotalIsExactExactlyWhenItFits(x.lines, x.discount, x.shippingFee);
  }

  // ----- coupons

  /** Every use of a coupon that counts is a live order, and every live order that uses it counts. */
  lemma CouponCountsAreLiveOrders(db: Db, c: nat, user: nat)
    requires Reachable(db)
    ensures CountActive(db.redemptions, c) == Sum(db.orders, UsesCoupon(c))
    ensures CountActiveForUser(db.redemptions, c, user) == Sum(db.orders, UsesCouponBy(c, user))
  {
    ReachableKeepsInv(db);
    ActiveRedemptionsAreLiveOrders(db.coupons, db.orders, db.redemptions, c, user);
  }

  // ----- refunds and returns

  lemma RefundedMeansRefunded(db: Db, o: nat, q: nat)
    requires Reachable(db) && o < |db.orders|
    ensures db.orders[o].payment == Refunded <==> HasSucceededRefund(db.refunds, o)
    ensures q < |db.returnRequests| && db.returnRequests[q].status == ReturnRefunded ==>
              HasSucceededRefund(db.refunds, db.returnRequests[q].order)
  {
    ReachableKeepsInv(db);
    RefundedExactlyWhenARefundSucceeded(db.orders, db.refunds, db.returnRequests, o);
    assert q < |db.returnRequests| ==> ReturnRowInv(db.orders, db.refunds, db.returnRequests[q]);
  }

  // ----- outbox

  ghost function RowsFor(db: Db, e: Event): set<string> {
    set k | k in db.outbox && db.outbox[k] == e
  }

  lemma RowsForAnEvent(db: Db, e: Event)
    requires OutboxInv(db)
    ensures RowsFor(db, e) == if Key(e) in db.outbox then {Key(e)} else {}
  {
    forall k | k in RowsFor(db, e) ensures k == Key(e) {
    }
    if Key(e) in db.outbox {
      KeyIsInjective(db.outbox[Key(e)], e);
    }
  }

  /**
   * Exactly one row for each thing that happened at some moment of the run - order placed, cancelled, paid,
   * taken a step further, return step, refund result, password reset - and none for anything else; without
   * notifications configured, no row at all.
   */
  lemma OutboxIsCompleteAndDuplicateFree(notify: bool, steps: seq<Step>, e: Event)
    ensures RowsFor(Run(EmptyDb(notify), steps), e)
            == if notify && HappenedDuring(EmptyDb(notify), steps, e) then {Key(e)} else {}
  {
    var db := Run(EmptyDb(notify), steps);
    InitialInv(notify);
    RunKeepsInv(EmptyDb(notify), steps);
    RowsForAnEvent(db, e);
    if notify {
      RowsTellTheRun(steps, e);
    } else {
      RunEvolves(EmptyDb(notify), steps);
    }
  }

  /** What the tables say has happened has its one row, and what they can still deny has none. */
  lemma RowsAgreeWithTheTables(db: Db, e: Event)
    requires Reachable(db) && db.notify
    ensures Happened(db, e) ==> RowsFor(db, e) == {Key(e)}
    ensures !Happened(db, e) && !Forgotten(db, e) ==> RowsFor(db, e) == {}
  {
    ReachableKeepsInv(db);
    RowsForAnEvent(db, e);
    WhatHappenedIsNotForgotten(db, e);
  }

  /** The two notifications a customer must not get twice nor miss. */
  lemma CancelledAndPaidAreNotifiedOnce(db: Db, o: nat)
    requires Reachable(db) && db.notify && o < |db.orders|
    ensures |RowsFor(db, OrderEvent(o, OrderCancelled))| == if db.orders[o].status == Cancelled then 1 else 0
    ensures |RowsFor(db, OrderEvent(o, PaymentSucceeded))| == if Settled(db.orders[o].payment) then 1 else 0
  {
    RowsAgreeWithTheTables(db, OrderEvent(o, OrderCancelled));
    RowsAgreeWithTheTables(db, OrderEvent(o, PaymentSucceeded));
  }

  /** A row, once written, is never lost or overwritten. */
  lemma OutboxRowsPersist(db: Db, steps: seq<Step>, k: string)
    requires Reachable(db) && k in db.outbox
    ensures k in Run(db, steps).outbox && Run(db, steps).outbox[k] == db.outbox[k]
  {
    ReachableKeepsInv(db);
    RunEvolves(db, steps);
  }

  // ----- cart merge

  /** However much later a merge is repeated with its key, it changes nothing and answers the same. */
  lemma MergeIsIdempotentForever(db: Db, user: nat, key: string, items: seq<MergeItem>, steps: seq<Step>,
                                 again: seq<MergeItem>)
    requires Reachable(db) && ValidItems(items) && ValidItems(again)
    ensures var (merged, reply) := MergeGuestCart(db, user, key, items);
            MergeGuestCart(Run(merged, steps), user, key, again) == (Run(merged, steps), reply)
  {
    var merged := MergeGuestCart(db, user, key, items).0;
    ReachableKeepsInv(db);
    assert merged == Next(db, DoMerge(user, key, items));
    StepKeepsInv(db, DoMerge(user, key, items));
    RunEvolves(merged, steps);
  }
}
