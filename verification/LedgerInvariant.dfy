/** Order totals, coupon redemptions, refunds and returns: what every transaction keeps about them. */
module LedgerInvariant {
  import opened Basics
  import opened Statuses
  import opened Pricing
  import opened Tables
  import opened Orders
  import opened Refunds

  // ----- order totals

  ghost predicate MoneyInv(o: Order) {
    && o.itemsSubtotal == Subtotal(o.lines)
    && 0 <= o.discount <= o.itemsSubtotal
    && 0 <= o.shippingFee
    && o.total == Total(o.itemsSubtotal, o.discount, o.shippingFee)
    && 0 <= o.total
    && (o.coupon.None? ==> o.discount == 0)
    && o.currency == "IRR"
  }

  // ----- coupons

  /** The redemption that belongs to an order: released exactly when the order is cancelled. */
  ghost predicate RedemptionInv(o: Order, r: Option<Redemption>, couponCount: nat) {
    match o.coupon
    case None => r.None?
    case Some(c) =>
      c < couponCount && r == Some(Redemption(c, o.user, o.status == Cancelled))
  }

  ghost predicate CouponInv(coupons: seq<Coupon>, orders: seq<Order>, redemptions: seq<Option<Redemption>>) {
    && |redemptions| == |orders|
    && forall o | 0 <= o < |orders| :: RedemptionInv(orders[o], redemptions[o], |coupons|)
  }

  function UsesCoupon(c: nat): Order -> int {
    (o: Order) => if o.coupon == Some(c) && o.status != Cancelled then 1 else 0
  }

  function UsesCouponBy(c: nat, user: nat): Order -> int {
    (o: Order) => if o.coupon == Some(c) && o.status != Cancelled && o.user == user then 1 else 0
  }

  /** The usage count of a coupon is the number of live orders that use it, in all and per customer. */
  lemma ActiveRedemptionsAreLiveOrders(coupons: seq<Coupon>, orders: seq<Order>, redemptions: seq<Option<Redemption>>,
                                       c: nat, user: nat)
    requires CouponInv(coupons, orders, redemptions)
    ensures CountActive(redemptions, c) == Sum(orders, UsesCoupon(c))
    ensures CountActiveForUser(redemptions, c, user) == Sum(orders, UsesCouponBy(c, user))
  {
    forall o | 0 <= o < |orders|
      ensures ActiveFor(c)(redemptions[o]) == UsesCoupon(c)(orders[o])
      ensures ActiveForUser(c, user)(redemptions[o]) == UsesCouponBy(c, user)(orders[o])
    {
      assert RedemptionInv(orders[o], redemptions[o], |coupons|);
    }
    SumCongruent(redemptions, orders, ActiveFor(c), UsesCoupon(c));
    SumCongruent(redemptions, orders, ActiveForUser(c, user), UsesCouponBy(c, user));
  }

  lemma CouponOrderChangeKeeps(coupons: seq<Coupon>, orders: seq<Order>, redemptions: seq<Option<Redemption>>,
                               o: nat, order: Order)
    requires CouponInv(coupons, orders, redemptions) && o < |orders|
    requires order.coupon == orders[o].coupon && order.user == orders[o].user
    requires (order.status == Cancelled) == (orders[o].status == Cancelled)
    ensures CouponInv(coupons, orders[o := order], redemptions)
  {
    forall k | 0 <= k < |orders| ensures RedemptionInv(orders[o := order][k], redemptions[k], |coupons|) {
      assert RedemptionInv(orders[k], redemptions[k], |coupons|);
    }
  }

  lemma CouponCancelKeeps(coupons: seq<Coupon>, orders: seq<Order>, redemptions: seq<Option<Redemption>>, o: nat)
    requires CouponInv(coupons, orders, redemptions) && o < |orders|
    ensures CouponInv(coupons, SetStatus(orders, o, Cancelled), Release(redemptions, o))
  {
    var orders', redemptions' := SetStatus(orders, o, Cancelled), Release(redemptions, o);
    forall k | 0 <= k < |orders'| ensures RedemptionInv(orders'[k], redemptions'[k], |coupons|) {
      assert RedemptionInv(orders[k], redemptions[k], |coupons|);
    }
  }

  // ----- refunds and returns

  ghost predicate RefundRowInv(orders: seq<Order>, r: Refund) {
    && r.order < |orders|
    && Settled(orders[r.order].payment)
    && (r.status == RefundSucceeded <==> orders[r.order].payment == Refunded)
  }

  ghost predicate ReturnRowInv(orders: seq<Order>, refunds: seq<Refund>, q: Return) {
    && q.order < |orders|
    && q.user == orders[q.order].user
    && orders[q.order].status == Delivered
    && Settled(orders[q.order].payment)
    && (q.status == ReturnRefunded ==> HasSucceededRefund(refunds, q.order))
  }

  ghost predicate RefundInv(orders: seq<Order>, refunds: seq<Refund>, returnRequests: seq<Return>) {
    && (forall r | 0 <= r < |refunds| :: RefundRowInv(orders, refunds[r]))
    && (forall r, s | 0 <= r < |refunds| && 0 <= s < |refunds| && r != s :: refunds[r].order != refunds[s].order)
    && (forall o | 0 <= o < |orders| :: orders[o].payment == Refunded ==> HasSucceededRefund(refunds, o))
    && (forall q | 0 <= q < |returnRequests| :: ReturnRowInv(orders, refunds, returnRequests[q]))
    && (forall q, s | 0 <= q < |returnRequests| && 0 <= s < |returnRequests| && q != s ::
          returnRequests[q].order != returnRequests[s].order)
  }

  /** An order is refunded exactly when it has a succeeded refund. */
  lemma RefundedExactlyWhenARefundSucceeded(orders: seq<Order>, refunds: seq<Refund>, returnRequests: seq<Return>, o: nat)
    requires RefundInv(orders, refunds, returnRequests) && o < |orders|
    ensures orders[o].payment == Refunded <==> HasSucceededRefund(refunds, o)
  {
    if HasSucceededRefund(refunds, o) {
      var r :| 0 <= r < |refunds| && refunds[r].order == o && refunds[r].status == RefundSucceeded;
      assert RefundRowInv(orders, refunds[r]);
    }
  }

  /** The unlocked eligibility check adds nothing to the check under the lock. */
  lemma RefundPrecheckIsImplied(db: Db, o: nat)
    requires forall k | 0 <= k < |db.orders| :: db.orders[k].status == Cancelled ==> !Settled(db.orders[k].payment)
    ensures CheckRefundEligibility(db, o).None? <==> o < |db.orders| && db.orders[o].payment == Paid
  {
  }

  lemma RefundOrderChangeKeeps(orders: seq<Order>, refunds: seq<Refund>, returnRequests: seq<Return>, o: nat, order: Order)
    requires RefundInv(orders, refunds, returnRequests) && o < |orders|
    requires order.user == orders[o].user
    requires order.status == orders[o].status || orders[o].status != Delivered
    requires order.payment == orders[o].payment || (!Settled(orders[o].payment) && order.payment == Paid)
    ensures RefundInv(orders[o := order], refunds, returnRequests)
  {
    var orders' := orders[o := order];
    forall r | 0 <= r < |refunds| ensures RefundRowInv(orders', refunds[r]) {
      assert RefundRowInv(orders, refunds[r]);
    }
    forall q | 0 <= q < |returnRequests| ensures ReturnRowInv(orders', refunds, returnRequests[q]) {
      assert ReturnRowInv(orders, refunds, returnRequests[q]);
    }
  }

  lemma RefundNewOrderKeeps(orders: seq<Order>, refunds: seq<Refund>, returnRequests: seq<Return>, order: Order)
    requires RefundInv(orders, refunds, returnRequests) && !Settled(order.payment)
    ensures RefundInv(orders + [order], refunds, returnRequests)
  {
    var orders' := orders + [order];
    forall r | 0 <= r < |refunds| ensures RefundRowInv(orders', refunds[r]) {
      assert RefundRowInv(orders, refunds[r]);
    }
    forall q | 0 <= q < |returnRequests| ensures ReturnRowInv(orders', refunds, returnRequests[q]) {
      assert ReturnRowInv(orders, refunds, returnRequests[q]);
    }
  }

  lemma CreateRefundKeeps(db: Db, o: nat, returnRequest: Option<nat>, amount: int, payMethod: PaymentMethod)
    requires RefundInv(db.orders, db.refunds, db.returnRequests)
    ensures var after := CreateRefund(db, o, returnRequest, amount, payMethod).0;
            RefundInv(after.orders, after.refunds, after.returnRequests)
  {
    var (after, reply) := CreateRefund(db, o, returnRequest, amount, payMethod);
    if reply.NewRow? {
      forall r | 0 <= r < |after.refunds| ensures RefundRowInv(after.orders, after.refunds[r]) {
        assert r < |db.refunds| ==> RefundRowInv(db.orders, db.refunds[r]);
      }
      SucceededRefundsPersist(db.refunds, after.refunds);
      forall q | 0 <= q < |db.returnRequests| ensures ReturnRowInv(after.orders, after.refunds, db.returnRequests[q]) {
        assert ReturnRowInv(db.orders, db.refunds, db.returnRequests[q]);
      }
    }
  }

  lemma SucceededRefundsPersist(before: seq<Refund>, after: seq<Refund>)
    requires |before| <= |after|
    requires forall r | 0 <= r < |before| :: after[r].order == before[r].order
    requires forall r | 0 <= r < |before| && before[r].status == RefundSucceeded :: after[r].status == RefundSucceeded
    ensures forall o: nat :: HasSucceededRefund(before, o) ==> HasSucceededRefund(after, o)
  {
    forall o: nat | HasSucceededRefund(before, o) ensures HasSucceededRefund(after, o) {
      var r :| 0 <= r < |before| && before[r].order == o && before[r].status == RefundSucceeded;
      assert after[r].order == o && after[r].status == RefundSucceeded;
    }
  }

  /** A refund row moves, and its order with it when the refund succeeds. */
  lemma RefundMoveKeeps(orders: seq<Order>, refunds: seq<Refund>, returnRequests: seq<Return>, r: nat, s: RefundStatus)
    requires RefundInv(orders, refunds, returnRequests) && r < |refunds| && RefundCanTransition(refunds[r].status, s)
    ensures RefundInv(Coupled(orders, refunds[r].order, s), refunds[r := refunds[r].(status := s)], returnRequests)
  {
    var orders', refunds' := Coupled(orders, refunds[r].order, s), refunds[r := refunds[r].(status := s)];
    assert RefundRowInv(orders, refunds[r]);
    forall k | 0 <= k < |refunds'| ensures RefundRowInv(orders', refunds'[k]) {
      assert RefundRowInv(orders, refunds[k]);
      assert k != r ==> refunds[k].order != refunds[r].order;
    }
    SucceededRefundsPersist(refunds, refunds');
    forall k: nat | k < |orders'| && orders'[k].payment == Refunded ensures HasSucceededRefund(refunds', k) {
      if orders[k].payment != Refunded {
        assert refunds'[r].order == k && refunds'[r].status == RefundSucceeded;
      }
    }
    forall q | 0 <= q < |returnRequests| ensures ReturnRowInv(orders', refunds', returnRequests[q]) {
      assert ReturnRowInv(orders, refunds, returnRequests[q]);
    }
  }

  lemma CreateReturnKeeps(db: Db, o: nat, user: nat)
    requires RefundInv(db.orders, db.refunds, db.returnRequests)
    ensures var after := CreateReturn(db, o, user).0;
            RefundInv(after.orders, after.refunds, after.returnRequests)
  {
    var (after, reply) := CreateReturn(db, o, user);
    if reply.NewRow? {
      forall q | 0 <= q < |after.returnRequests|
        ensures ReturnRowInv(after.orders, after.refunds, after.returnRequests[q])
      {
        assert q < |db.returnRequests| ==> ReturnRowInv(db.orders, db.refunds, db.returnRequests[q]);
      }
    }
  }

  lemma UpdateReturnKeeps(db: Db, r: nat, newStatus: ReturnStatus)
    requires RefundInv(db.orders, db.refunds, db.returnRequests)
    ensures var after := UpdateReturnStatus(db, r, newStatus).0;
            RefundInv(after.orders, after.refunds, after.returnRequests)
  {
    var (after, reply) := UpdateReturnStatus(db, r, newStatus);
    if reply.Done? {
      forall q | 0 <= q < |after.returnRequests|
        ensures ReturnRowInv(after.orders, after.refunds, after.returnRequests[q])
      {
        assert ReturnRowInv(db.orders, db.refunds, db.returnRequests[q]);
      }
    }
  }
}
