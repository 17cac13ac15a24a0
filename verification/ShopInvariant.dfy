/** The inductive invariant of the shop: every transaction keeps it, so every run does. */
module ShopInvariant {
  import opened Basics
  import opened Statuses
  import opened EventKeys
  import opened Pricing
  import opened Tables
  import opened CartMerge
  import opened Orders
  import opened Payments
  import opened Refunds
  import opened Catalog
  import opened Recovery
  import opened Shop
  import opened PaymentInvariant
  import opened StockInvariant
  import opened LedgerInvariant
  import opened OutboxInvariant

  ghost predicate TablesInv(db: Db) {
    && PaymentInv(db.orders, db.attempts)
    && StockInv(db.products, db.orders, db.adjustments)
    && CartInv(db.cart, |db.products|)
    && (forall o | 0 <= o < |db.orders| :: MoneyInv(db.orders[o]))
    && CouponInv(db.coupons, db.orders, db.redemptions)
    && RefundInv(db.orders, db.refunds, db.returnRequests)
  }

  ghost predicate Inv(db: Db) {
    TablesInv(db) && OutboxInv(db)
  }

  lemma EnqueuedKeepsInv(tables: Db, e: Event)
    requires TablesInv(tables) && OutboxInv(Enqueue(tables, e))
    ensures Inv(Enqueue(tables, e))
  {
  }

  lemma InitialInv(notify: bool)
    ensures Inv(EmptyDb(notify))
  {
  }

  // ----- orders

  lemma StatusColumnKeepsTables(db: Db, o: nat, s: OrderStatus)
    requires TablesInv(db) && o < |db.orders|
    requires s != Cancelled && CanTransition(db.orders[o].status, s)
    requires RequiresPaidPayment(db.orders[o].payMethod, s) ==> db.orders[o].payment == Paid
    ensures TablesInv(db.(orders := SetStatus(db.orders, o, s)))
  {
    var order := db.orders[o].(status := s);
    StatusChangeKeeps(db.orders, db.attempts, o, s);
    SameHoldingKeeps(db.products, db.orders, db.adjustments, o, order);
    CouponOrderChangeKeeps(db.coupons, db.orders, db.redemptions, o, order);
    RefundOrderChangeKeeps(db.orders, db.refunds, db.returnRequests, o, order);
  }

  lemma StatusStepKeepsInv(db: Db, o: nat, s: OrderStatus)
    requires Inv(db) && o < |db.orders|
    requires s != Cancelled && CanTransition(db.orders[o].status, s)
    requires RequiresPaidPayment(db.orders[o].payMethod, s) ==> db.orders[o].payment == Paid
    ensures Inv(Enqueue(db.(orders := SetStatus(db.orders, o, s)), OrderStatusEvent(o, s)))
  {
    var tables := db.(orders := SetStatus(db.orders, o, s));
    StatusColumnKeepsTables(db, o, s);
    AdvancingIsNotified(db, tables, o, s);
    EnqueuedKeepsInv(tables, OrderStatusEvent(o, s));
  }

  /** The tables of a cancellation, before it is notified. */
  function CancelledTables(db: Db, o: nat): Db
    requires o < |db.orders|
  {
    db.(products := Restored(db.products, db.orders[o].lines),
        redemptions := Release(db.redemptions, o),
        orders := SetStatus(db.orders, o, Cancelled))
  }

  lemma CancellingKeepsTables(db: Db, o: nat)
    requires TablesInv(db) && o < |db.orders|
    requires CanTransition(db.orders[o].status, Cancelled)
    requires !PaymentBlocksCancellation(db.attempts, o, db.orders[o].payment)
    requires Restorable(db.products, db.orders[o].lines)
    ensures TablesInv(CancelledTables(db, o))
  {
    var order := db.orders[o].(status := Cancelled);
    StatusChangeKeeps(db.orders, db.attempts, o, Cancelled);
    CancellingKeeps(db.products, db.orders, db.adjustments, o);
    CouponCancelKeeps(db.coupons, db.orders, db.redemptions, o);
    RefundOrderChangeKeeps(db.orders, db.refunds, db.returnRequests, o, order);
  }

  lemma CancelOrderKeepsInv(db: Db, o: nat)
    requires Inv(db) && o < |db.orders|
    requires CanTransition(db.orders[o].status, Cancelled)
    requires !PaymentBlocksCancellation(db.attempts, o, db.orders[o].payment)
    requires Restorable(db.products, db.orders[o].lines)
    ensures Inv(CancelOrder(db, o))
  {
    CancellingKeepsTables(db, o);
    CancellingIsNotified(db, CancelledTables(db, o), o);
    EnqueuedKeepsInv(CancelledTables(db, o), OrderEvent(o, OrderCancelled));
  }

  /** The picked orders that no attempt blocks, now that the rows are locked. */
  function Releasable(attempts: seq<Attempt>, picks: seq<nat>): seq<nat> {
    if picks == [] then []
    else (if HasBlockingAttempt(attempts, picks[0]) then [] else [picks[0]]) + Releasable(attempts, picks[1..])
  }

  ghost predicate StillPending(orders: seq<Order>, picks: seq<nat>) {
    forall i | 0 <= i < |picks| ::
      picks[i] < |orders| && orders[picks[i]].status == Pending && !Settled(orders[picks[i]].payment)
  }

  /** The first pick is dealt with, and the others are still as they were picked. */
  lemma CancelEachUnfolds(db: Db, picks: seq<nat>, count: nat)
    requires StillPending(db.orders, picks) && picks != []
    requires forall i, j | 0 <= i < j < |picks| :: picks[i] < picks[j]
    ensures var (o, rest) := (picks[0], picks[1..]);
            && StillPending(db.orders, rest)
            && StillPending(CancelOrder(db, o).orders, rest)
            && CancelOrder(db, o).attempts == db.attempts
            && CancelOrder(db, o).orders == SetStatus(db.orders, o, Cancelled)
            && CancelEach(db, picks, count)
               == (if HasBlockingAttempt(db.attempts, o) then CancelEach(db, rest, count)
                   else if Restorable(db.products, db.orders[o].lines) then CancelEach(CancelOrder(db, o), rest, count + 1)
                   else None)
  {
  }

  /**
   * An expiry run keeps the invariant even when its query missed fresh attempts, because of the
   * re-check under the lock.
   */
  lemma {:induction false} CancelEachKeepsInv(db: Db, picks: seq<nat>, count: nat)
    requires Inv(db) && StillPending(db.orders, picks)
    requires forall i, j | 0 <= i < j < |picks| :: picks[i] < picks[j]
    ensures var r := CancelEach(db, picks, count);
            r.Some? ==> Inv(r.value.0)
    decreases picks
  {
    if picks != [] {
      var o, rest := picks[0], picks[1..];
      CancelEachUnfolds(db, picks, count);
      if HasBlockingAttempt(db.attempts, o) {
        CancelEachKeepsInv(db, rest, count);
        assert CancelEach(db, picks, count) == CancelEach(db, rest, count);
      } else if Restorable(db.products, db.orders[o].lines) {
        CancelOrderKeepsInv(db, o);
        CancelEachKeepsInv(CancelOrder(db, o), rest, count + 1);
        assert CancelEach(db, picks, count) == CancelEach(CancelOrder(db, o), rest, count + 1);
      } else {
        assert CancelEach(db, picks, count).None?;
      }
    }
  }

  /** One cancellation more on top of the others. */
  ghost predicate CancelledExactly(before: seq<Order>, after: seq<Order>, cancelled: seq<nat>) {
    && |after| == |before|
    && forall o | 0 <= o < |before| :: after[o] == if o in cancelled then before[o].(status := Cancelled) else before[o]
  }

  /** It cancels and counts exactly the picked orders no attempt blocks. */
  lemma {:induction false} CancelEachCancelsExactly(db: Db, picks: seq<nat>, count: nat)
    requires StillPending(db.orders, picks)
    requires forall i, j | 0 <= i < j < |picks| :: picks[i] < picks[j]
    ensures var r := CancelEach(db, picks, count);
            r.Some? ==>
              && r.value.1 == count + |Releasable(db.attempts, picks)|
              && CancelledExactly(db.orders, r.value.0.orders, Releasable(db.attempts, picks))
    decreases picks
  {
    if picks != [] {
      var o, rest := picks[0], picks[1..];
      CancelEachUnfolds(db, picks, count);
      if HasBlockingAttempt(db.attempts, o) {
        CancelEachCancelsExactly(db, rest, count);
      } else if Restorable(db.products, db.orders[o].lines) {
        CancelEachCancelsExactly(CancelOrder(db, o), rest, count + 1);
        var r := CancelEach(db, picks, count);
        if r.Some? {
          CancellingOneMore(db.orders, r.value.0.orders, o, Releasable(db.attempts, rest));
        }
      }
    }
  }

  lemma CancellingOneMore(before: seq<Order>, after: seq<Order>, o: nat, others: seq<nat>)
    requires o < |before| && CancelledExactly(SetStatus(before, o, Cancelled), after, others)
    ensures CancelledExactly(before, after, [o] + others)
  {
  }

  lemma DiscountIsWithinTheSubtotal(o: Order, coupons: seq<Coupon>)
    requires o.itemsSubtotal == Subtotal(o.lines) && 0 <= o.itemsSubtotal && 0 <= o.shippingFee
    requires o.total == Total(o.itemsSubtotal, o.discount, o.shippingFee) && 0 <= o.total && o.currency == "IRR"
    requires o.coupon.Some? ==> o.coupon.value < |coupons|
    requires o.discount == if o.coupon.None? then 0 else
               CalculateDiscount(coupons[o.coupon.value].kind, coupons[o.coupon.value].value, o.itemsSubtotal)
    ensures MoneyInv(o)
  {
    if o.coupon.Some? {
      DiscountWithinSubtotal(coupons[o.coupon.value].kind, coupons[o.coupon.value].value, o.itemsSubtotal);
    }
  }

  function PlacedTables(db: Db, order: Order): Db {
    db.(orders := db.orders + [order],
        redemptions := db.redemptions
                       + [if order.coupon.Some? then Some(Redemption(order.coupon.value, order.user, false)) else None],
        products := Taken(db.products, order.lines),
        cart := WithoutUser(db.cart, order.user))
  }

  lemma PlacingKeepsTables(db: Db, order: Order)
    requires TablesInv(db)
    requires order.status == Pending && order.payment == Unpaid && order.payMethod == Manual
    requires MoneyInv(order) && LinesInv(order.lines, |db.products|)
    requires order.coupon.Some? ==> order.coupon.value < |db.coupons|
    requires StockNonNegative(Taken(db.products, order.lines))
    ensures TablesInv(PlacedTables(db, order))
  {
    var tables := PlacedTables(db, order);
    NewOrderKeeps(db.orders, db.attempts, order);
    PlacingKeeps(db.products, db.orders, db.adjustments, order);
    RefundNewOrderKeeps(db.orders, db.refunds, db.returnRequests, order);
    forall k | 0 <= k < |tables.orders| ensures RedemptionInv(tables.orders[k], tables.redemptions[k], |db.coupons|) {
      assert k < |db.orders| ==> RedemptionInv(db.orders[k], db.redemptions[k], |db.coupons|);
    }
  }

  lemma PlaceOrderKeepsInv(db: Db, order: Order)
    requires Inv(db)
    requires order.status == Pending && order.payment == Unpaid && order.payMethod == Manual
    requires MoneyInv(order) && LinesInv(order.lines, |db.products|)
    requires order.coupon.Some? ==> order.coupon.value < |db.coupons|
    requires StockNonNegative(Taken(db.products, order.lines))
    ensures Inv(PlaceOrder(db, order))
  {
    PlacingKeepsTables(db, order);
    PlacingIsNotified(db, PlacedTables(db, order), order);
    EnqueuedKeepsInv(PlacedTables(db, order), OrderEvent(|db.orders|, Created));
  }

  /** The order's money follows from its lines, the coupon the customer named and the shipping table. */
  ghost predicate PricedBy(coupons: seq<Coupon>, order: Order, input: CheckoutInput, ship: ShippingConfig, allDigital: bool) {
    && order.coupon == NamedCoupon(coupons, input.couponCode)
    && order.itemsSubtotal == Subtotal(order.lines)
    && order.discount == (if order.coupon.None? then 0
                          else CalculateDiscount(coupons[order.coupon.value].kind, coupons[order.coupon.value].value,
                                                 order.itemsSubtotal))
    && Some(order.shippingFee) == Fee(ship, if allDigital then "digital" else input.shippingMethod,
                                      Wrap(order.itemsSubtotal - order.discount))
    && order.total == Total(order.itemsSubtotal, order.discount, order.shippingFee)
  }

  lemma NewOrderIsPriced(db: Db, user: nat, input: CheckoutInput, ship: ShippingConfig, lines: seq<Line>, now: int)
    requires Fee(ship, input.shippingMethod, 0).Some?
    ensures var allDigital := AllDigital(db.products, lines);
            var order := NewOrder(db, user, if allDigital then "digital" else input.shippingMethod, ship, lines,
                                  NamedCoupon(db.coupons, input.couponCode), now);
            && PricedBy(db.coupons, order, input, ship, allDigital)
            && (OrderRowAccepted(order) ==> MoneyInv(order))
  {
    var allDigital := AllDigital(db.products, lines);
    var order := NewOrder(db, user, if allDigital then "digital" else input.shippingMethod, ship, lines,
                          NamedCoupon(db.coupons, input.couponCode), now);
    SecondFeeLookupSucceeds(ship, input.shippingMethod, if allDigital then "digital" else input.shippingMethod, 0,
                            Wrap(order.itemsSubtotal - order.discount));
    if OrderRowAccepted(order) {
      DiscountIsWithinTheSubtotal(order, db.coupons);
    }
  }

  /** What an accepted checkout has checked about the order it places. */
  lemma CheckoutPlaces(db: Db, user: nat, input: CheckoutInput, ship: ShippingConfig, now: int, today: int)
    returns (order: Order)
    requires CreateFromCart(db, user, input, ship, now, today).1.NewRow?
    ensures CreateFromCart(db, user, input, ship, now, today).0 == PlaceOrder(db, order)
    ensures order.status == Pending && order.payment == Unpaid && order.payMethod == Manual && order.user == user
    ensures order.lines == CartLines(db.products, db.cart, user, |db.products|)
    ensures PricedBy(db.coupons, order, input, ship, AllDigital(db.products, order.lines))
    ensures MoneyInv(order) && order.createdAt == now
    ensures order.coupon.Some? ==>
              order.coupon.value < |db.coupons|
              && Ineligibility(db, order.coupon.value, user, order.itemsSubtotal, now).None?
    ensures StockNonNegative(Taken(db.products, order.lines))
  {
    order := CreateFromCart(db, user, input, ship, now, today).0.orders[|db.orders|];
    NewOrderIsPriced(db, user, input, ship, CartLines(db.products, db.cart, user, |db.products|), now);
  }

  lemma CheckoutKeepsInv(db: Db, user: nat, input: CheckoutInput, ship: ShippingConfig, now: int, today: int)
    requires Inv(db)
    ensures Inv(CreateFromCart(db, user, input, ship, now, today).0)
  {
    if CreateFromCart(db, user, input, ship, now, today).1.NewRow? {
      var order := CheckoutPlaces(db, user, input, ship, now, today);
      LinesOfAValidCart(db, user);
      PlaceOrderKeepsInv(db, order);
    }
  }

  lemma LinesOfAValidCart(db: Db, user: nat)
    requires CartInv(db.cart, |db.products|)
    ensures LinesInv(CartLines(db.products, db.cart, user, |db.products|), |db.products|)
  {
    CartLinesComeFromCart(db.products, db.cart, user, |db.products|);
  }

  lemma CheckoutStepKeepsInv(db: Db, s: Step)
    requires Inv(db) && s.DoCheckout?
    ensures Inv(Next(db, s))
  {
    CheckoutKeepsInv(db, s.user, s.input, s.ship, s.now, s.today);
    assert Next(db, s) == CreateFromCart(db, s.user, s.input, s.ship, s.now, s.today).0;
  }

  lemma ExpiryStepKeepsInv(db: Db, s: Step)
    requires Inv(db) && s.DoExpireReservations?
    ensures Inv(Next(db, s))
  {
    CancelEachKeepsInv(db, ExpiryPicks(db.orders, s.seen, s.cutoff, s.locked, 0, EXPIRY_BATCH), 0);
    assert Next(db, s) == ExpireReservations(db, s.cutoff, s.locked, s.seen).0;
  }

  lemma StatusMovesKeepInv(db: Db, s: Step)
    requires Inv(db) && (s.DoUpdateStatus? || s.DoCancelOwn?)
    ensures Inv(Next(db, s))
  {
    if s.DoUpdateStatus? {
      UpdateStatusKeepsInv(db, s.order, s.newStatus);
      assert Next(db, s) == UpdateStatus(db, s.order, s.newStatus).0;
    } else {
      CancelOwnKeepsInv(db, s.user, s.order);
      assert Next(db, s) == CancelOwnOrder(db, s.user, s.order).0;
    }
  }

  lemma OrderStepKeepsInv(db: Db, s: Step)
    requires Inv(db) && IsOrderStep(s)
    ensures Inv(Next(db, s))
  {
    if s.DoCheckout? {
      CheckoutStepKeepsInv(db, s);
    } else if s.DoExpireReservations? {
      ExpiryStepKeepsInv(db, s);
    } else {
      StatusMovesKeepInv(db, s);
    }
  }

  lemma UpdateStatusKeepsInv(db: Db, o: nat, newStatus: OrderStatus)
    requires Inv(db)
    ensures Inv(UpdateStatus(db, o, newStatus).0)
  {
    if UpdateStatus(db, o, newStatus).1.Done? {
      if newStatus == Cancelled {
        CancelOrderKeepsInv(db, o);
      } else {
        StatusStepKeepsInv(db, o, newStatus);
      }
    }
  }

  lemma CancelOwnKeepsInv(db: Db, user: nat, o: nat)
    requires Inv(db)
    ensures Inv(CancelOwnOrder(db, user, o).0)
  {
    if CancelOwnOrder(db, user, o).1.Done? {
      CancelOrderKeepsInv(db, o);
    }
  }

  // ----- payments

  /** A payment step changes at most the payment columns of one order. */
  lemma PaymentColumnsKeepInv(db: Db, after: Db, o: nat)
    requires Inv(db) && o < |db.orders|
    requires OnlyPaymentsDiffer(db, after)
    requires |after.orders| == |db.orders|
    requires after.orders == db.orders[o := db.orders[o].(payment := after.orders[o].payment,
                                                          payMethod := after.orders[o].payMethod)]
    requires after.orders[o].payment == db.orders[o].payment
             || (!Settled(db.orders[o].payment) && after.orders[o].payment == Paid)
    requires PaymentInv(after.orders, after.attempts)
    requires OutboxInv(after)
    ensures Inv(after)
  {
    var order := after.orders[o];
    SameHoldingKeeps(db.products, db.orders, db.adjustments, o, order);
    CouponOrderChangeKeeps(db.coupons, db.orders, db.redemptions, o, order);
    RefundOrderChangeKeeps(db.orders, db.refunds, db.returnRequests, o, order);
  }

  /** An opened attempt changes nothing a notification speaks about. */
  lemma OpeningFacts(db: Db, g: Gateway, user: nat, o: nat, now: int)
    ensures var after := CreateAttempt(db, g, user, o, now).0;
            && SameOrderFacts(db.orders, after.orders)
            && after.outbox == db.outbox && OnlyPaymentsDiffer(db, after)
  {
  }

  lemma OpeningIsQuiet(db: Db, g: Gateway, user: nat, o: nat, now: int)
    requires OutboxInv(db)
    ensures OutboxInv(CreateAttempt(db, g, user, o, now).0)
  {
    OpeningFacts(db, g, user, o, now);
    QuietKeeps(db, CreateAttempt(db, g, user, o, now).0);
  }

  lemma CreateAttemptKeepsInv(db: Db, g: Gateway, user: nat, o: nat, now: int)
    requires Inv(db)
    ensures Inv(CreateAttempt(db, g, user, o, now).0)
  {
    var (after, reply) := CreateAttempt(db, g, user, o, now);
    if reply.NewRow? {
      CreateAttemptKeeps(db, g, user, o, now);
      OpeningIsQuiet(db, g, user, o, now);
      PaymentColumnsKeepInv(db, after, o);
    }
  }

  lemma RecordVerifiedKeepsInv(db: Db, i: nat, refId: int, code: int)
    requires Inv(db) && i < |db.attempts| && !Verified(db.attempts[i].status)
    requires db.attempts[i].order < |db.orders|
    requires refId > 0 && code in {CODE_SUCCESS, CODE_ALREADY_VERIFIED}
    ensures Inv(RecordVerified(db, i, refId, code).0)
  {
    RecordVerifiedKeeps(db, i, refId, code);
    var (after, reply) := RecordVerified(db, i, refId, code);
    if reply.Settlement? {
      var o := reply.order;
      if reply.finalStatus == AttemptPaid {
        SettlingIsNotified(db, db.(attempts := after.attempts, orders := after.orders), o);
        PaymentColumnsKeepInv(db, after, o);
      } else {
        AttemptColumnsKeepInv(db, after.attempts);
      }
    }
  }

  lemma FinalizeVerifiedKeepsInv(db: Db, g: Gateway, authority: string, refId: int, code: int)
    requires Inv(db)
    ensures Inv(FinalizeVerified(db, g, authority, refId, code).0)
  {
    var i := FindAttempt(db.attempts, authority);
    if && refId > 0 && code in {CODE_SUCCESS, CODE_ALREADY_VERIFIED} && i.Some?
       && db.attempts[i.value].order < |db.orders| && !Verified(db.attempts[i.value].status) {
      RecordVerifiedKeepsInv(db, i.value, refId, code);
    }
  }

  /** A payment step that leaves the orders alone. */
  lemma AttemptColumnsKeepInv(db: Db, attempts: seq<Attempt>)
    requires Inv(db) && PaymentInv(db.orders, attempts)
    ensures Inv(db.(attempts := attempts))
  {
    QuietKeeps(db, db.(attempts := attempts));
  }

  lemma SetAuthorityKeepsInv(db: Db, g: Gateway, i: nat, authority: string)
    requires Inv(db)
    ensures Inv(SetAuthority(db, g, i, authority).0)
  {
    SetAuthorityKeeps(db, g, i, authority);
    AttemptColumnsKeepInv(db, SetAuthority(db, g, i, authority).0.attempts);
  }

  lemma MarkFailedKeepsInv(db: Db, g: Gateway, i: nat, code: Option<int>)
    requires Inv(db)
    ensures Inv(MarkAttemptFailed(db, g, i, code).0)
  {
    MarkAttemptFailedKeeps(db, g, i, code);
    AttemptColumnsKeepInv(db, MarkAttemptFailed(db, g, i, code).0.attempts);
  }

  lemma ExpireRejectedKeepsInv(db: Db, g: Gateway, i: nat, cutoff: int)
    requires Inv(db)
    ensures Inv(ExpireRejected(db, g, i, cutoff).0)
  {
    ExpireRejectedKeeps(db, g, i, cutoff);
    AttemptColumnsKeepInv(db, ExpireRejected(db, g, i, cutoff).0.attempts);
  }

  /** A failed attempt never has an authority, so no payment-failed notification is ever written. */
  lemma FinalizeFailedIsSilent(db: Db, g: Gateway, authority: string, code: Option<int>)
    requires PaymentInv(db.orders, db.attempts)
    ensures var after := FinalizeFailed(db, g, authority, code).0;
            after == db.(attempts := after.attempts)
  {
    if FindAttempt(db.attempts, authority).Some? {
      assert AttemptInv(db.orders, db.attempts[FindAttempt(db.attempts, authority).value]);
    }
  }

  lemma FinalizeFailedKeepsInv(db: Db, g: Gateway, authority: string, code: Option<int>)
    requires Inv(db)
    ensures Inv(FinalizeFailed(db, g, authority, code).0)
  {
    FinalizeFailedKeeps(db, g, authority, code);
    FinalizeFailedIsSilent(db, g, authority, code);
    AttemptColumnsKeepInv(db, FinalizeFailed(db, g, authority, code).0.attempts);
  }

  lemma OpeningStepKeepsInv(db: Db, s: Step)
    requires Inv(db) && s.DoCreateAttempt?
    ensures Inv(Next(db, s))
  {
    CreateAttemptKeepsInv(db, s.gateway, s.user, s.order, s.now);
    assert Next(db, s) == CreateAttempt(db, s.gateway, s.user, s.order, s.now).0;
  }

  lemma AuthorityStepKeepsInv(db: Db, s: Step)
    requires Inv(db) && s.DoSetAuthority?
    ensures Inv(Next(db, s))
  {
    SetAuthorityKeepsInv(db, s.gateway, s.attempt, s.authority);
    assert Next(db, s) == SetAuthority(db, s.gateway, s.attempt, s.authority).0;
  }

  lemma FailingStepKeepsInv(db: Db, s: Step)
    requires Inv(db) && s.DoMarkFailed?
    ensures Inv(Next(db, s))
  {
    MarkFailedKeepsInv(db, s.gateway, s.attempt, s.code);
    assert Next(db, s) == MarkAttemptFailed(db, s.gateway, s.attempt, s.code).0;
  }

  lemma RejectingStepKeepsInv(db: Db, s: Step)
    requires Inv(db) && s.DoFinalizeFailed?
    ensures Inv(Next(db, s))
  {
    FinalizeFailedKeepsInv(db, s.gateway, s.authority, s.code);
    assert Next(db, s) == FinalizeFailed(db, s.gateway, s.authority, s.code).0;
  }

  lemma ExpiringStepKeepsInv(db: Db, s: Step)
    requires Inv(db) && s.DoExpireRejected?
    ensures Inv(Next(db, s))
  {
    ExpireRejectedKeepsInv(db, s.gateway, s.attempt, s.cutoff);
    assert Next(db, s) == ExpireRejected(db, s.gateway, s.attempt, s.cutoff).0;
  }

  lemma VerifyingStepKeepsInv(db: Db, s: Step)
    requires Inv(db) && s.DoFinalizeVerified?
    ensures Inv(Next(db, s))
  {
    FinalizeVerifiedKeepsInv(db, s.gateway, s.authority, s.refId, s.verifiedCode);
    assert Next(db, s) == FinalizeVerified(db, s.gateway, s.authority, s.refId, s.verifiedCode).0;
  }

  lemma AttemptStepKeepsInv(db: Db, s: Step)
    requires Inv(db) && IsAttemptStep(s)
    ensures Inv(Next(db, s))
  {
    if s.DoCreateAttempt? {
      OpeningStepKeepsInv(db, s);
    } else if s.DoSetAuthority? {
      AuthorityStepKeepsInv(db, s);
    } else if s.DoMarkFailed? {
      FailingStepKeepsInv(db, s);
    } else if s.DoFinalizeVerified? {
      VerifyingStepKeepsInv(db, s);
    } else if s.DoFinalizeFailed? {
      RejectingStepKeepsInv(db, s);
    } else {
      ExpiringStepKeepsInv(db, s);
    }
  }

  // ----- refunds and returns

  lemma CreateRefundKeepsInv(db: Db, o: nat, returnRequest: Option<nat>, amount: int, payMethod: PaymentMethod)
    requires Inv(db)
    ensures Inv(CreateRefund(db, o, returnRequest, amount, payMethod).0)
  {
    var (after, reply) := CreateRefund(db, o, returnRequest, amount, payMethod);
    if reply.NewRow? {
      CreateRefundKeeps(db, o, returnRequest, amount, payMethod);
      NewRefundIsSilent(db, after);
    }
  }

  /** A refund step changes at most the payment status of one paid order. */
  lemma RefundColumnsKeepInv(db: Db, after: Db, o: nat)
    requires Inv(db) && o < |db.orders|
    requires OnlyRefundsDiffer(db, after)
    requires after.orders == db.orders
             || (db.orders[o].payment == Paid
                 && after.orders == db.orders[o := db.orders[o].(payment := Refunded)])
    requires RefundInv(after.orders, after.refunds, after.returnRequests)
    requires OutboxInv(after)
    ensures Inv(after)
  {
    if after.orders != db.orders {
      var order := after.orders[o];
      RefundingKeeps(db.orders, db.attempts, o);
      SameHoldingKeeps(db.products, db.orders, db.adjustments, o, order);
      CouponOrderChangeKeeps(db.coupons, db.orders, db.redemptions, o, order);
    }
  }

  /** A refund row moves, its order with it, and the outbox has been told. */
  lemma MovedRefundKeepsInv(db: Db, after: Db, r: nat, newStatus: RefundStatus)
    requires Inv(db) && r < |db.refunds| && RefundCanTransition(db.refunds[r].status, newStatus)
    requires OnlyRefundsDiffer(db, after) && after.returnRequests == db.returnRequests
    requires after.orders == Coupled(db.orders, db.refunds[r].order, newStatus)
    requires after.refunds == db.refunds[r := db.refunds[r].(status := newStatus)]
    requires OutboxInv(after)
    ensures Inv(after)
  {
    RefundMoveKeeps(db.orders, db.refunds, db.returnRequests, r, newStatus);
    assert RefundRowInv(db.orders, db.refunds[r]);
    RefundColumnsKeepInv(db, after, db.refunds[r].order);
  }

  lemma UpdateRefundIsNotified(db: Db, r: nat, newStatus: RefundStatus)
    requires OutboxInv(db) && UpdateRefundStatus(db, r, newStatus).1.Done?
    ensures OutboxInv(UpdateRefundStatus(db, r, newStatus).0)
  {
    var after := UpdateRefundStatus(db, r, newStatus).0;
    RefundMoveIsNotified(db, db.(orders := after.orders, refunds := after.refunds), r, newStatus);
  }

  lemma UpdateRefundKeepsInv(db: Db, r: nat, newStatus: RefundStatus)
    requires Inv(db)
    ensures Inv(UpdateRefundStatus(db, r, newStatus).0)
  {
    if UpdateRefundStatus(db, r, newStatus).1.Done? {
      UpdateRefundIsNotified(db, r, newStatus);
      MovedRefundKeepsInv(db, UpdateRefundStatus(db, r, newStatus).0, r, newStatus);
    }
  }

  lemma CreateReturnKeepsInv(db: Db, o: nat, user: nat)
    requires Inv(db)
    ensures Inv(CreateReturn(db, o, user).0)
  {
    var (after, reply) := CreateReturn(db, o, user);
    if reply.NewRow? {
      CreateReturnKeeps(db, o, user);
      NewReturnIsNotified(db, db.(returnRequests := after.returnRequests), Return(o, user, ReturnRequested));
    }
  }

  lemma UpdateReturnKeepsInv(db: Db, r: nat, newStatus: ReturnStatus)
    requires Inv(db)
    ensures Inv(UpdateReturnStatus(db, r, newStatus).0)
  {
    var (after, reply) := UpdateReturnStatus(db, r, newStatus);
    if reply.Done? {
      UpdateReturnKeeps(db, r, newStatus);
      ReturnMoveIsNotified(db, db.(returnRequests := after.returnRequests), r, newStatus);
    }
  }

  lemma NewRefundKeepsInv(db: Db, s: Step)
    requires Inv(db) && s.DoCreateRefund?
    ensures Inv(Next(db, s))
  {
    CreateRefundKeepsInv(db, s.order, s.returnRequest, s.amount, s.payMethod);
    assert Next(db, s) == CreateRefund(db, s.order, s.returnRequest, s.amount, s.payMethod).0;
  }

  lemma RefundMoveKeepsInv(db: Db, s: Step)
    requires Inv(db) && s.DoUpdateRefund?
    ensures Inv(Next(db, s))
  {
    UpdateRefundKeepsInv(db, s.refund, s.refundStatus);
    assert Next(db, s) == UpdateRefundStatus(db, s.refund, s.refundStatus).0;
  }

  lemma NewReturnKeepsInv(db: Db, s: Step)
    requires Inv(db) && s.DoCreateReturn?
    ensures Inv(Next(db, s))
  {
    CreateReturnKeepsInv(db, s.order, s.user);
    assert Next(db, s) == CreateReturn(db, s.order, s.user).0;
  }

  lemma ReturnMoveKeepsInv(db: Db, s: Step)
    requires Inv(db) && s.DoUpdateReturn?
    ensures Inv(Next(db, s))
  {
    UpdateReturnKeepsInv(db, s.returnId, s.returnStatus);
    assert Next(db, s) == UpdateReturnStatus(db, s.returnId, s.returnStatus).0;
  }

  lemma RefundStepKeepsInv(db: Db, s: Step)
    requires Inv(db) && IsRefundStep(s)
    ensures Inv(Next(db, s))
  {
    if s.DoCreateRefund? {
      NewRefundKeepsInv(db, s);
    } else if s.DoUpdateRefund? {
      RefundMoveKeepsInv(db, s);
    } else if s.DoCreateReturn? {
      NewReturnKeepsInv(db, s);
    } else {
      ReturnMoveKeepsInv(db, s);
    }
  }

  // ----- catalogue

  lemma CatalogChangeKeepsInv(db: Db, after: Db)
    requires Inv(db) && OnlyCatalogDiffers(db, after)
    requires StockInv(after.products, db.orders, after.adjustments)
    requires CartInv(after.cart, |after.products|)
    requires |db.coupons| <= |after.coupons|
    ensures Inv(after)
  {
    QuietKeeps(db, after);
    CouponTableGrows(db, after.coupons);
  }

  /** Stock stays, cart rows stay positive, coupons are not lost. */
  ghost predicate CartKept(before: Db, after: Db) {
    && after.products == before.products && after.adjustments == before.adjustments
    && CartInv(after.cart, |after.products|)
    && |before.coupons| <= |after.coupons|
  }

  lemma CartRowStepKeeps(db: Db, s: Step)
    requires CartInv(db.cart, |db.products|) && (s.DoAddItem? || s.DoUpdateItem? || s.DoDeleteItem?)
    ensures CartKept(db, Next(db, s))
  {
    if s.DoAddItem? {
      assert Next(db, s) == AddItem(db, s.user, s.product, s.quantity).0;
    } else if s.DoUpdateItem? {
      assert Next(db, s) == UpdateItem(db, s.user, s.product, s.quantity).0;
    } else {
      assert Next(db, s) == DeleteItem(db, s.user, s.product).0;
    }
  }

  lemma MergeKeepsCart(db: Db, user: nat, key: string, items: seq<MergeItem>)
    requires CartInv(db.cart, |db.products|)
    ensures CartKept(db, MergeGuestCart(db, user, key, items).0)
  {
  }

  /** Cart and coupon transactions leave the stock alone and the cart rows positive. */
  lemma CartStepKeeps(db: Db, s: Step)
    requires CartInv(db.cart, |db.products|)
    requires s.DoAddItem? || s.DoUpdateItem? || s.DoDeleteItem? || s.DoMerge? || s.DoCreateCoupon? || s.DoUpdateCoupon?
    ensures CartKept(db, Next(db, s))
  {
    if s.DoMerge? {
      MergeKeepsCart(db, s.user, s.key, s.items);
      assert Next(db, s) == MergeGuestCart(db, s.user, s.key, s.items).0;
    } else if s.DoCreateCoupon? {
      assert Next(db, s) == CreateCoupon(db, s.coupon).0;
    } else if s.DoUpdateCoupon? {
      assert Next(db, s) == UpdateCoupon(db, s.id, s.coupon).0;
    } else {
      CartRowStepKeeps(db, s);
    }
  }

  lemma StockStepKeeps(db: Db, s: Step)
    requires StockInv(db.products, db.orders, db.adjustments) && CartInv(db.cart, |db.products|)
    requires s.DoCreateProduct? || s.DoAdjustStock? || s.DoUpdateProduct?
    ensures var after := Next(db, s);
            && StockInv(after.products, db.orders, after.adjustments)
            && CartInv(after.cart, |after.products|)
            && after.coupons == db.coupons
  {
    if s.DoCreateProduct? {
      CreateProductKeeps(db, s.name, s.price, s.stock, s.education, s.expiry);
      assert Next(db, s) == CreateProduct(db, s.name, s.price, s.stock, s.education, s.expiry).0;
    } else if s.DoAdjustStock? {
      AdjustStockKeeps(db, s.product, s.delta);
      assert Next(db, s) == AdjustStock(db, s.product, s.delta).0;
    } else {
      UpdateProductKeeps(db, s.product, s.name, s.price, s.stock, s.education, s.expiry);
      assert Next(db, s) == UpdateProduct(db, s.product, s.name, s.price, s.stock, s.education, s.expiry).0;
    }
  }

  lemma CatalogStepLeavesOrders(db: Db, s: Step)
    requires IsCatalogStep(s)
    ensures OnlyCatalogDiffers(db, Next(db, s))
  {
  }

  lemma CatalogStepKeepsInv(db: Db, s: Step)
    requires Inv(db) && IsCatalogStep(s)
    ensures Inv(Next(db, s))
  {
    CatalogStepLeavesOrders(db, s);
    var after := Next(db, s);
    if s.DoCreateProduct? || s.DoAdjustStock? || s.DoUpdateProduct? {
      StockStepKeeps(db, s);
    } else {
      CartStepKeeps(db, s);
    }
    CatalogChangeKeepsInv(db, after);
  }

  lemma CouponTableGrows(db: Db, coupons: seq<Coupon>)
    requires CouponInv(db.coupons, db.orders, db.redemptions) && |db.coupons| <= |coupons|
    ensures CouponInv(coupons, db.orders, db.redemptions)
  {
    forall o | 0 <= o < |db.orders| ensures RedemptionInv(db.orders[o], db.redemptions[o], |coupons|) {
      assert RedemptionInv(db.orders[o], db.redemptions[o], |db.coupons|);
    }
  }

  // ----- all steps, all runs

  lemma RecoveryChangeKeepsInv(db: Db, after: Db)
    requires Inv(db) && OnlyRecoveryDiffers(db, after) && OutboxInv(after)
    ensures Inv(after)
  {
  }

  lemma RecoveryStepKeepsInv(db: Db, s: Step)
    requires Inv(db) && IsRecoveryStep(s)
    ensures Inv(Next(db, s))
  {
    if s.DoQueuePasswordReset? {
      ResetIsNotified(db, s.user, s.tokenHash);
      RecoveryChangeKeepsInv(db, QueuePasswordReset(db, s.user, s.tokenHash).0);
      assert Next(db, s) == QueuePasswordReset(db, s.user, s.tokenHash).0;
    } else {
      PurgeIsSilent(db, s.gone);
      RecoveryChangeKeepsInv(db, PurgeResetTokens(db, s.gone).0);
      assert Next(db, s) == PurgeResetTokens(db, s.gone).0;
    }
  }

  lemma StepKeepsInv(db: Db, s: Step)
    requires Inv(db)
    ensures Inv(Next(db, s))
  {
    StepKinds(s);
    if IsCatalogStep(s) {
      CatalogStepKeepsInv(db, s);
    } else if IsAttemptStep(s) {
      AttemptStepKeepsInv(db, s);
    } else if IsRefundStep(s) {
      RefundStepKeepsInv(db, s);
    } else if IsRecoveryStep(s) {
      RecoveryStepKeepsInv(db, s);
    } else {
      OrderStepKeepsInv(db, s);
    }
  }

  lemma AddItemKeepsInv(db: Db, user: nat, p: nat, quantity: int)
    requires Inv(db)
    ensures Inv(AddItem(db, user, p, quantity).0)
  {
    CatalogChangeKeepsInv(db, AddItem(db, user, p, quantity).0);
  }

  lemma UpdateItemKeepsInv(db: Db, user: nat, p: nat, quantity: int)
    requires Inv(db)
    ensures Inv(UpdateItem(db, user, p, quantity).0)
  {
    CatalogChangeKeepsInv(db, UpdateItem(db, user, p, quantity).0);
  }

  lemma DeleteItemKeepsInv(db: Db, user: nat, p: nat)
    requires Inv(db)
    ensures Inv(DeleteItem(db, user, p).0)
  {
    CatalogChangeKeepsInv(db, DeleteItem(db, user, p).0);
  }

  lemma AdjustStockKeepsInv(db: Db, p: nat, delta: int)
    requires Inv(db)
    ensures Inv(AdjustStock(db, p, delta).0)
  {
    AdjustStockKeeps(db, p, delta);
    CatalogChangeKeepsInv(db, AdjustStock(db, p, delta).0);
  }

  lemma UpdateProductKeepsInv(db: Db, p: nat, name: string, price: int, stock: int, education: bool, expiry: Option<int>)
    requires Inv(db)
    ensures Inv(UpdateProduct(db, p, name, price, stock, education, expiry).0)
  {
    UpdateProductKeeps(db, p, name, price, stock, education, expiry);
    CatalogChangeKeepsInv(db, UpdateProduct(db, p, name, price, stock, education, expiry).0);
  }

  lemma MergeKeepsInv(db: Db, user: nat, key: string, items: seq<MergeItem>)
    requires Inv(db)
    ensures Inv(MergeGuestCart(db, user, key, items).0)
  {
    var s := DoMerge(user, key, items);
    assert Next(db, s) == MergeGuestCart(db, user, key, items).0;
    CatalogStepKeepsInv(db, s);
  }

  /** The invariant holds after every run, whatever the transactions, their order and their arguments. */
  lemma {:induction false} RunKeepsInv(db: Db, steps: seq<Step>)
    requires Inv(db)
    ensures Inv(Run(db, steps))
  {
    if steps != [] {
      RunKeepsInv(db, steps[..|steps| - 1]);
      StepKeepsInv(Run(db, steps[..|steps| - 1]), steps[|steps| - 1]);
    }
  }

  ghost predicate Reachable(db: Db) {
    exists notify: bool, steps: seq<Step> :: db == Run(EmptyDb(notify), steps)
  }

  lemma ReachableKeepsInv(db: Db)
    requires Reachable(db)
    ensures Inv(db)
  {
    var notify: bool, steps: seq<Step> :| db == Run(EmptyDb(notify), steps);
    InitialInv(notify);
    RunKeepsInv(EmptyDb(notify), steps);
  }
}
