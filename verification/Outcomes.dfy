/** When the central transactions succeed, in terms of what a caller can see, and exactly what they then change. */
module Outcomes {
  import opened Basics
  import opened Statuses
  import opened Pricing
  import opened Tables
  import opened Orders
  import opened Payments
  import opened Refunds
  import opened PaymentInvariant
  import LedgerInvariant
  import opened StockInvariant
  import opened ShopInvariant

  // ----- cancellation

  /** A pending order nobody is paying online, or one a person is processing without online payment. */
  predicate Cancellable(db: Db, o: nat) {
    && o < |db.orders|
    && ((db.orders[o].status == Pending
         && forall i | 0 <= i < |db.attempts| && db.attempts[i].order == o ::
              db.attempts[i].status == AttemptExpired
              || (db.attempts[i].status == AttemptFailed && db.attempts[i].authority.None?))
        || (db.orders[o].status == Processing && db.orders[o].payMethod == Manual))
    && forall p | 0 <= p < |db.products| :: db.products[p].stock + Quantity(db.orders[o].lines, p) <= 0x7FFF_FFFF
  }

  /** What a cancellation does to the tables: each ordered unit back on its shelf, the coupon use released, the status. */
  ghost predicate Cancelling(before: Db, after: Db, o: nat)
    requires o < |before.orders|
  {
    && |after.products| == |before.products|
    && (forall p | 0 <= p < |before.products| ::
          after.products[p] == before.products[p].(
                                 stock := before.products[p].stock + Quantity(before.orders[o].lines, p)))
    && after.orders == before.orders[o := before.orders[o].(status := Cancelled)]
    && |after.redemptions| == |before.redemptions|
    && (forall k | 0 <= k < |before.redemptions| ::
          after.redemptions[k] == if k == o && before.redemptions[k].Some?
                                  then Some(before.redemptions[k].value.(released := true)) else before.redemptions[k])
    && after.cart == before.cart && after.attempts == before.attempts && after.coupons == before.coupons
    && after.refunds == before.refunds && after.returnRequests == before.returnRequests
  }

  lemma CancellableMeansUnblocked(db: Db, o: nat)
    requires PaymentInv(db.orders, db.attempts) && o < |db.orders|
    ensures Cancellable(db, o) <==>
              && CanTransition(db.orders[o].status, Cancelled)
              && !PaymentBlocksCancellation(db.attempts, o, db.orders[o].payment)
              && Restorable(db.products, db.orders[o].lines)
  {
    assert OrderInv(db.orders[o], HasPaidAttempt(db.attempts, o));
    if HasPaidAttempt(db.attempts, o) {
      var i :| 0 <= i < |db.attempts| && db.attempts[i].order == o && db.attempts[i].status == AttemptPaid;
      assert Blocks(db.attempts[i]);
    }
    if HasBlockingAttempt(db.attempts, o) {
      var i :| 0 <= i < |db.attempts| && db.attempts[i].order == o && Blocks(db.attempts[i]);
      assert AttemptInv(db.orders, db.attempts[i]);
    }
  }

  lemma CancelOrderCancels(db: Db, o: nat)
    requires o < |db.orders|
    ensures Cancelling(db, CancelOrder(db, o), o)
  {
  }

  /**
   * An admin can cancel exactly the cancellable orders, and their owner the same ones; both do the same,
   * and neither can do it twice.
   */
  lemma CancellationOutcome(db: Db, user: nat, o: nat)
    requires Inv(db) && o < |db.orders|
    ensures var ((byAdmin, reply), (byOwner, answer)) := (UpdateStatus(db, o, Cancelled), CancelOwnOrder(db, user, o));
            && (reply == Done <==> Cancellable(db, o))
            && (answer == Done <==> Cancellable(db, o) && db.orders[o].user == user)
            && (reply == Done ==>
                 && Cancelling(db, byAdmin, o)
                 && UpdateStatus(byAdmin, o, Cancelled) == (byAdmin, Rejected(InvalidTransition)))
            && (answer == Done ==>
                 && byOwner == byAdmin
                 && CancelOwnOrder(byOwner, user, o) == (byOwner, Rejected(InvalidTransition)))
            && (reply != Done ==> byAdmin == db) && (answer != Done ==> byOwner == db)
  {
    CancellableMeansUnblocked(db, o);
    CancelOrderCancels(db, o);
  }

  // ----- opening a payment

  /**
   * A payment session can be opened exactly for one's own pending order of a payable amount, through a
   * configured gateway, when no other session of the order is open, unresolved or paid.
   */
  lemma AttemptOutcome(db: Db, g: Gateway, user: nat, o: nat, now: int)
    requires Inv(db)
    ensures CreateAttempt(db, g, user, o, now).1.NewRow? <==>
              && o < |db.orders| && db.orders[o].user == user && db.orders[o].status == Pending
              && db.orders[o].total >= MINIMUM_AMOUNT
              && g.environment !in {"", "legacy"} && g.identity != ""
              && forall i | 0 <= i < |db.attempts| && db.attempts[i].order == o ::
                   db.attempts[i].status == AttemptExpired
                   || (db.attempts[i].status == AttemptFailed && db.attempts[i].authority.None?)
  {
    if o < |db.orders| {
      assert OrderInv(db.orders[o], HasPaidAttempt(db.attempts, o));
      assert LedgerInvariant.MoneyInv(db.orders[o]);
      if HasPaidAttempt(db.attempts, o) {
        var i :| 0 <= i < |db.attempts| && db.attempts[i].order == o && db.attempts[i].status == AttemptPaid;
        assert Blocks(db.attempts[i]);
      }
      forall i | 0 <= i < |db.attempts| && db.attempts[i].order == o
        ensures Blocks(db.attempts[i]) <==>
                  !(db.attempts[i].status == AttemptExpired
                    || (db.attempts[i].status == AttemptFailed && db.attempts[i].authority.None?))
      {
      }
    }
  }

  // ----- opening a refund

  /**
   * A refund is created exactly for an order with a paid attempt that has no refund of any status yet,
   * over a positive amount and, if it names a return, one that exists; it starts out pending and moves
   * nothing else.
   */
  lemma CreateRefundOutcome(db: Db, o: nat, returnRequest: Option<nat>, amount: int, payMethod: PaymentMethod)
    requires Inv(db)
    ensures var (after, reply) := CreateRefund(db, o, returnRequest, amount, payMethod);
            && (reply.NewRow? <==>
                 && o < |db.orders| && HasPaidAttempt(db.attempts, o) && !HasRefund(db.refunds, o)
                 && amount > 0 && (returnRequest.Some? ==> returnRequest.value < |db.returnRequests|))
            && (if reply.NewRow?
                then reply.id == |db.refunds| && HasRefund(after.refunds, o)
                     && after == db.(refunds := db.refunds + [Refund(o, returnRequest, amount, payMethod, RefundPending)])
                else after == db && reply.Rejected?)
  {
    if o < |db.orders| {
      LedgerInvariant.RefundedExactlyWhenARefundSucceeded(db.orders, db.refunds, db.returnRequests, o);
      SettledExactlyWhenOnePaidAttempt(db.orders, db.attempts, o);
      if HasSucceededRefund(db.refunds, o) {
        var r :| 0 <= r < |db.refunds| && db.refunds[r].order == o && db.refunds[r].status == RefundSucceeded;
        assert HasRefund(db.refunds, o);
      }
    }
    var (after, reply) := CreateRefund(db, o, returnRequest, amount, payMethod);
    if reply.NewRow? {
      assert after.refunds[|db.refunds|].order == o;
    }
  }

  // ----- checkout

  /** Every product in the cart is in stock and in date. */
  ghost predicate CartAvailable(db: Db, user: nat, today: int) {
    forall p | 0 <= p < |db.products| && CartKey(user, p) in db.cart ::
      && db.cart[CartKey(user, p)] <= db.products[p].stock
      && (db.products[p].expiry.Some? ==> today <= db.products[p].expiry.value)
  }

  ghost predicate CartAllDigital(db: Db, user: nat) {
    forall p | 0 <= p < |db.products| && CartKey(user, p) in db.cart :: db.products[p].education
  }

  ghost predicate CartEmpty(db: Db, user: nat) {
    forall p | 0 <= p < |db.products| :: CartKey(user, p) !in db.cart
  }

  /** The checkout lines are the user's cart rows, product by product. */
  ghost predicate LinesAreTheCart(db: Db, user: nat, lines: seq<Line>) {
    && LinesFromCart(lines, db.products, db.cart, user, |db.products|)
    && (forall p: nat | p < |db.products| :: Quantity(lines, p) == CartQuantity(db.cart, user, p))
    && forall p: nat | p < |db.products| && CartKey(user, p) in db.cart ::
         exists i :: 0 <= i < |lines| && lines[i].product == p
  }

  lemma CheckoutLinesAreTheCart(db: Db, user: nat)
    ensures LinesAreTheCart(db, user, CartLines(db.products, db.cart, user, |db.products|))
  {
    var lines := CartLines(db.products, db.cart, user, |db.products|);
    CartLinesComeFromCart(db.products, db.cart, user, |db.products|);
    forall p: nat | p < |db.products|
      ensures Quantity(lines, p) == CartQuantity(db.cart, user, p)
      ensures CartKey(user, p) in db.cart ==> exists i :: 0 <= i < |lines| && lines[i].product == p
    {
      CartLinesMatchCart(db.products, db.cart, user, |db.products|, p);
    }
  }

  lemma EmptyLines(db: Db, user: nat, lines: seq<Line>)
    requires LinesAreTheCart(db, user, lines)
    ensures lines == [] <==> CartEmpty(db, user)
  {
    if lines != [] {
      assert CartKey(user, lines[0].product) in db.cart;
    }
  }

  lemma AvailableLines(db: Db, user: nat, lines: seq<Line>, today: int)
    requires LinesAreTheCart(db, user, lines)
    ensures Purchasable(db.products, lines, today) <==> CartAvailable(db, user, today)
  {
    if Purchasable(db.products, lines, today) {
      forall p: nat | p < |db.products| && CartKey(user, p) in db.cart
        ensures db.cart[CartKey(user, p)] <= db.products[p].stock
        ensures db.products[p].expiry.Some? ==> today <= db.products[p].expiry.value
      {
        var i :| 0 <= i < |lines| && lines[i].product == p;
      }
    }
  }

  lemma DigitalLines(db: Db, user: nat, lines: seq<Line>)
    requires LinesAreTheCart(db, user, lines)
    ensures AllDigital(db.products, lines) <==> CartAllDigital(db, user)
  {
    if AllDigital(db.products, lines) {
      forall p: nat | p < |db.products| && CartKey(user, p) in db.cart ensures db.products[p].education {
        var i :| 0 <= i < |lines| && lines[i].product == p;
      }
    }
  }

  /**
   * What a checkout does: the cart's quantities leave the shelves and become the order, priced by the
   * named coupon and the shipping method; the coupon is redeemed and only this cart is emptied.
   */
  ghost predicate CheckingOut(before: Db, after: Db, user: nat, input: CheckoutInput, ship: ShippingConfig, now: int) {
    && |after.orders| == |before.orders| + 1
    && after.orders[..|before.orders|] == before.orders
    && |after.products| == |before.products|
    && (forall p | 0 <= p < |before.products| ::
          after.products[p] == before.products[p].(stock := before.products[p].stock - CartQuantity(before.cart, user, p)))
    && (forall k: CartKey :: k in after.cart <==> k in before.cart && k.user != user)
    && (forall k: CartKey | k in after.cart :: after.cart[k] == before.cart[k])
    && (var order := after.orders[|before.orders|];
        && order.user == user && order.status == Pending && order.payment == Unpaid && order.payMethod == Manual
        && order.currency == "IRR" && order.createdAt == now
        && PricedBy(before.coupons, order, input, ship, CartAllDigital(before, user))
        && after.redemptions == before.redemptions
                                + [if order.coupon.Some? then Some(Redemption(order.coupon.value, user, false)) else None]
        && (forall p: nat | p < |before.products| :: Quantity(order.lines, p) == CartQuantity(before.cart, user, p))
        && forall i | 0 <= i < |order.lines| ::
             order.lines[i].product < |before.products|
             && order.lines[i].price == before.products[order.lines[i].product].price)
  }

  lemma PlacingChecksOut(db: Db, order: Order, input: CheckoutInput, ship: ShippingConfig)
    requires LinesAreTheCart(db, order.user, order.lines)
    requires order.status == Pending && order.payment == Unpaid && order.payMethod == Manual && order.currency == "IRR"
    requires PricedBy(db.coupons, order, input, ship, CartAllDigital(db, order.user))
    ensures CheckingOut(db, PlaceOrder(db, order), order.user, input, ship, order.createdAt)
  {
  }

  /** An accepted checkout does just that, and a refused one nothing. */
  lemma CheckoutEffect(db: Db, user: nat, input: CheckoutInput, ship: ShippingConfig, now: int, today: int)
    ensures var (after, reply) := CreateFromCart(db, user, input, ship, now, today);
            if reply.NewRow? then CheckingOut(db, after, user, input, ship, now) else after == db && reply.Rejected?
  {
    if CreateFromCart(db, user, input, ship, now, today).1.NewRow? {
      var order := CheckoutPlaces(db, user, input, ship, now, today);
      CheckoutLinesAreTheCart(db, user);
      DigitalLines(db, user, order.lines);
      PlacingChecksOut(db, order, input, ship);
    }
  }

  /** The order a checkout would place. */
  function CheckoutOrder(db: Db, user: nat, input: CheckoutInput, ship: ShippingConfig, now: int): Order {
    var lines := CartLines(db.products, db.cart, user, |db.products|);
    NewOrder(db, user, if AllDigital(db.products, lines) then "digital" else input.shippingMethod, ship, lines,
             NamedCoupon(db.coupons, input.couponCode), now)
  }

  /** No amount is negative, and every item has a price, a quantity and a 64-bit line total to match. */
  predicate RowsAreSound(order: Order) {
    && order.total >= 0 && order.itemsSubtotal >= 0 && order.shippingFee >= 0 && order.discount >= 0
    && forall i | 0 <= i < |order.lines| ::
         order.lines[i].price >= 0 && order.lines[i].quantity >= 1 && Wrap(order.lines[i].price * order.lines[i].quantity) >= 0
  }

  /** The coupon is switched on, in force at this moment, sound, and satisfied with the amount. */
  predicate InForce(c: Coupon, itemsSubtotal: int, now: int) {
    && c.active
    && (c.startsAt.Some? ==> c.startsAt.value <= now) && (c.endsAt.Some? ==> now <= c.endsAt.value)
    && c.minOrderAmount <= itemsSubtotal
    && (c.kind == Percent || c.kind == Fixed) && 0 < c.value && (c.kind == Percent ==> c.value <= 100)
  }

  /** Naming no coupon, or one that exists, is in force and has room under both limits. */
  ghost predicate CouponUsable(db: Db, user: nat, input: CheckoutInput, now: int) {
    var c := NamedCoupon(db.coupons, input.couponCode);
    && (input.couponCode != "" ==> c.Some?)
    && (c.Some? ==>
         && InForce(db.coupons[c.value], Subtotal(CartLines(db.products, db.cart, user, |db.products|)), now)
         && (db.coupons[c.value].usageLimit.Some? ==>
              CountActive(db.redemptions, c.value) < db.coupons[c.value].usageLimit.value)
         && (db.coupons[c.value].perUserLimit.Some? ==>
              CountActiveForUser(db.redemptions, c.value, user) < db.coupons[c.value].perUserLimit.value))
  }

  predicate ShippingIsOffered(input: CheckoutInput, ship: ShippingConfig) {
    || input.shippingMethod == "digital"
    || (ship.configured && (input.shippingMethod == "standard" || input.shippingMethod == "express"))
  }

  /** Shipping method and cart are in order; what is left to look at are coupon and amounts. */
  ghost predicate CartIsInOrder(db: Db, user: nat, input: CheckoutInput, ship: ShippingConfig, today: int) {
    && ShippingIsOffered(input, ship) && !CartEmpty(db, user) && CartAvailable(db, user, today)
    && (input.shippingMethod == "digital" ==> CartAllDigital(db, user))
  }

  /**
   * A checkout is refused exactly for a wrong shipping method, an empty cart, a product out of stock or
   * out of date, digital delivery of goods, an unusable coupon, or an amount the order row does not
   * accept; the stock column's own check never has to step in.
   */
  lemma CheckoutOutcome(db: Db, user: nat, input: CheckoutInput, ship: ShippingConfig, now: int, today: int)
    requires StockNonNegative(db.products)
    ensures CreateFromCart(db, user, input, ship, now, today).1.NewRow? <==>
              && CartIsInOrder(db, user, input, ship, today)
              && CouponUsable(db, user, input, now)
              && RowsAreSound(CheckoutOrder(db, user, input, ship, now))
  {
    var lines := CartLines(db.products, db.cart, user, |db.products|);
    CheckoutLinesAreTheCart(db, user);
    EmptyLines(db, user, lines);
    AvailableLines(db, user, lines, today);
    DigitalLines(db, user, lines);
    AcceptedCheckoutLeavesStockNonNegative(db, user, today);
  }

  // ----- the amounts of an order

  /**
   * Delivery costs nothing for an all-digital cart, the express fee for express, and the standard fee
   * otherwise - unless the discounted goods reach a positive threshold for free standard delivery.
   */
  lemma CheckoutFee(db: Db, user: nat, input: CheckoutInput, ship: ShippingConfig, now: int, today: int)
    requires CreateFromCart(db, user, input, ship, now, today).1.NewRow?
    ensures |CreateFromCart(db, user, input, ship, now, today).0.orders| == |db.orders| + 1
    ensures var order := CreateFromCart(db, user, input, ship, now, today).0.orders[|db.orders|];
            var goods := order.itemsSubtotal - order.discount;
            && 0 <= goods
            && (CartAllDigital(db, user) ==> order.shippingFee == 0)
            && (!CartAllDigital(db, user) && input.shippingMethod == "express" ==> order.shippingFee == ship.express)
            && (!CartAllDigital(db, user) && input.shippingMethod == "standard" ==>
                 order.shippingFee == if 0 < ship.freeThreshold <= goods then 0 else ship.standard)
            && (!CartAllDigital(db, user) ==> input.shippingMethod == "express" || input.shippingMethod == "standard")
  {
    var order := CheckoutPlaces(db, user, input, ship, now, today);
    CheckoutLinesAreTheCart(db, user);
    DigitalLines(db, user, order.lines);
    DigitalDeliveryIsForDigitalCarts(db, user, input, ship, now, today);
    PricedFee(db.coupons, order, input, ship, CartAllDigital(db, user));
  }

  lemma DigitalDeliveryIsForDigitalCarts(db: Db, user: nat, input: CheckoutInput, ship: ShippingConfig, now: int, today: int)
    requires CreateFromCart(db, user, input, ship, now, today).1.NewRow?
    ensures input.shippingMethod == "digital" ==> CartAllDigital(db, user)
  {
    CheckoutLinesAreTheCart(db, user);
    DigitalLines(db, user, CartLines(db.products, db.cart, user, |db.products|));
  }

  lemma PricedFee(coupons: seq<Coupon>, order: Order, input: CheckoutInput, ship: ShippingConfig, allDigital: bool)
    requires PricedBy(coupons, order, input, ship, allDigital)
    requires LedgerInvariant.MoneyInv(order) && (input.shippingMethod == "digital" ==> allDigital)
    ensures var goods := order.itemsSubtotal - order.discount;
            && 0 <= goods
            && (allDigital ==> order.shippingFee == 0)
            && (!allDigital && input.shippingMethod == "express" ==> order.shippingFee == ship.express)
            && (!allDigital && input.shippingMethod == "standard" ==>
                 order.shippingFee == if 0 < ship.freeThreshold <= goods then 0 else ship.standard)
            && (!allDigital ==> input.shippingMethod == "express" || input.shippingMethod == "standard")
  {
    SubtotalIsExactModulo64Bits(order.lines);
    WrapIsIdentityExactlyInRange(ExactSubtotal(order.lines));
    WrapIsIdentityExactlyInRange(order.itemsSubtotal - order.discount);
  }

  /**
   * Without a code nothing is taken off. With one, its coupon takes off its amount, or the whole subtotal if
   * that is less; or its percentage of the subtotal, rounded down, as long as the product fits an int64.
   */
  lemma CheckoutDiscount(db: Db, user: nat, input: CheckoutInput, ship: ShippingConfig, now: int, today: int)
    requires CreateFromCart(db, user, input, ship, now, today).1.NewRow?
    ensures |CreateFromCart(db, user, input, ship, now, today).0.orders| == |db.orders| + 1
    ensures var order := CreateFromCart(db, user, input, ship, now, today).0.orders[|db.orders|];
            && (input.couponCode == "" <==> order.coupon.None?)
            && (order.coupon.None? ==> order.discount == 0)
            && (order.coupon.Some? ==>
                 && order.coupon.value < |db.coupons|
                 && (var c := db.coupons[order.coupon.value];
                     && c.code == input.couponCode && (c.kind == Fixed || c.kind == Percent)
                     && (c.kind == Fixed ==>
                          order.discount == if c.value <= order.itemsSubtotal then c.value else order.itemsSubtotal)
                     && (c.kind == Percent && order.itemsSubtotal * c.value <= MAX_INT64 ==>
                          100 * order.discount <= order.itemsSubtotal * c.value < 100 * order.discount + 100)))
  {
    var order := CheckoutPlaces(db, user, input, ship, now, today);
    if order.coupon.Some? {
      var c := db.coupons[order.coupon.value];
      CouponInForce(c, order.itemsSubtotal, now);
      if c.kind == Percent && order.itemsSubtotal * c.value <= MAX_INT64 {
        ExactProductGivesTheFloor(c.value, order.itemsSubtotal);
      }
    }
  }

  lemma CouponInForce(c: Coupon, itemsSubtotal: int, now: int)
    ensures CheckEligibility(c, itemsSubtotal, now).None? <==> InForce(c, itemsSubtotal, now)
  {
  }

  /** The reason given is the first that applies: switched off, too early, too late, too little, misconfigured. */
  lemma EligibilityReasons(c: Coupon, itemsSubtotal: int, now: int)
    ensures var r := CheckEligibility(c, itemsSubtotal, now);
            var tooEarly := c.startsAt.Some? && now < c.startsAt.value;
            var tooLate := c.endsAt.Some? && c.endsAt.value < now;
            && (r == Some(Inactive) <==> !c.active)
            && (r == Some(NotStarted) <==> c.active && tooEarly)
            && (r == Some(CouponExpired) <==> c.active && !tooEarly && tooLate)
            && (r == Some(MinOrderNotMet) <==> c.active && !tooEarly && !tooLate && itemsSubtotal < c.minOrderAmount)
            && (r == Some(InvalidConfig) <==>
                 && c.active && !tooEarly && !tooLate && c.minOrderAmount <= itemsSubtotal
                 && !((c.kind == Percent && 1 <= c.value <= 100) || (c.kind == Fixed && 1 <= c.value)))
  {
  }

  /**
   * Ordinary orders are never refused for their amounts: with prices and fee not negative and goods and fee
   * together in range, the row constraints hold.
   */
  lemma OrdinaryAmountsAreAccepted(db: Db, user: nat, input: CheckoutInput, ship: ShippingConfig, now: int)
    requires forall p | 0 <= p < |db.products| :: 0 <= db.products[p].price
    requires CartInv(db.cart, |db.products|)
    requires 0 <= ship.standard && 0 <= ship.express
    requires ExactSubtotal(CartLines(db.products, db.cart, user, |db.products|))
             + (if ship.standard < ship.express then ship.express else ship.standard) <= MAX_INT64
    ensures RowsAreSound(CheckoutOrder(db, user, input, ship, now))
  {
    var lines := CartLines(db.products, db.cart, user, |db.products|);
    var order := CheckoutOrder(db, user, input, ship, now);
    CheckoutLinesAreTheCart(db, user);
    forall i | 0 <= i < |lines| ensures 0 <= ExactLine()(lines[i]) && 0 <= lines[i].price && 0 < lines[i].quantity {
      LineIsNotNegative(lines[i]);
    }
    SumNonNegative(lines, ExactLine());
    SubtotalIsExactModulo64Bits(lines);
    WrapIsIdentityExactlyInRange(ExactSubtotal(lines));
    if order.coupon.Some? {
      var c := db.coupons[order.coupon.value];
      DiscountWithinSubtotal(c.kind, c.value, order.itemsSubtotal);
    }
    TotalIsExactExactlyWhenItFits(lines, order.discount, order.shippingFee);
    forall i | 0 <= i < |lines| ensures 0 <= Wrap(lines[i].price * lines[i].quantity) {
      WrapIsIdentityExactlyInRange(lines[i].price * lines[i].quantity);
      assert ExactLine()(lines[i]) <= ExactSubtotal(lines);
    }
  }

  lemma LineIsNotNegative(l: Line)
    requires 0 <= l.price && 0 < l.quantity
    ensures 0 <= ExactLine()(l)
  {
    assert 0 <= l.price * l.quantity;
  }

  // ----- fulfilment

  /** The steps of fulfilment: pending, processing, shipped, delivered. */
  predicate IsNextStep(from: OrderStatus, to: OrderStatus) {
    (from == Pending && to == Processing) || (from == Processing && to == Shipped) || (from == Shipped && to == Delivered)
  }

  /**
   * An order goes one step forward exactly when it is the next step and, for an order paid online, the payment is
   * there and has not been given back; only the status changes, with its notification. A wrong step is refused
   * as such before the payment is looked at.
   */
  lemma FulfilmentOutcome(db: Db, o: nat, s: OrderStatus)
    requires s != Cancelled
    ensures var (after, reply) := UpdateStatus(db, o, s);
            && (o >= |db.orders| ==> reply == Rejected(OrderNotFound))
            && (o < |db.orders| ==>
                 && (reply == Done <==> IsNextStep(db.orders[o].status, s)
                                        && (db.orders[o].payMethod == ZarinPal ==> db.orders[o].payment == Paid))
                 && (reply == Rejected(InvalidTransition) <==> !IsNextStep(db.orders[o].status, s))
                 && (reply == Rejected(PaymentRequired) <==>
                      IsNextStep(db.orders[o].status, s) && db.orders[o].payMethod == ZarinPal && db.orders[o].payment != Paid))
            && (if reply == Done
                then after == db.(orders := db.orders[o := db.orders[o].(status := s)], outbox := after.outbox)
                else after == db)
  {
  }

  /** Some session of the order is open, unresolved or paid, or its money has come in. */
  ghost predicate Holds(db: Db, o: nat) {
    && o < |db.orders|
    && (db.orders[o].payment == Paid || db.orders[o].payment == Refunded
        || exists i :: 0 <= i < |db.attempts| && db.attempts[i].order == o && db.attempts[i].status != AttemptExpired
                       && !(db.attempts[i].status == AttemptFailed && db.attempts[i].authority.None?))
  }

  ghost predicate StockHasRoom(db: Db, lines: seq<Line>) {
    forall p | 0 <= p < |db.products| :: db.products[p].stock + Quantity(lines, p) <= 0x7FFF_FFFF
  }

  lemma HoldingBlocks(db: Db, o: nat)
    requires o < |db.orders|
    ensures Holds(db, o) <==> PaymentBlocksCancellation(db.attempts, o, db.orders[o].payment)
  {
    if HasBlockingAttempt(db.attempts, o) {
      var i :| 0 <= i < |db.attempts| && db.attempts[i].order == o && Blocks(db.attempts[i]);
    }
    if i :| 0 <= i < |db.attempts| && db.attempts[i].order == o && db.attempts[i].status != AttemptExpired
            && !(db.attempts[i].status == AttemptFailed && db.attempts[i].authority.None?) {
      assert Blocks(db.attempts[i]);
    }
  }

  /** Why a cancellation is refused: to an admin the status comes first, to the owner the payment. */
  lemma CancellationRefusals(db: Db, user: nat, o: nat)
    requires o < |db.orders|
    ensures var (byAdmin, byOwner) := (UpdateStatus(db, o, Cancelled).1, CancelOwnOrder(db, user, o).1);
            var order := db.orders[o];
            var early := order.status == Pending || order.status == Processing;
            && (byAdmin == Rejected(InvalidTransition) <==> !early || (Holds(db, o) && order.payment != Paid))
            && (byAdmin == Rejected(RefundRequired) <==> early && order.payment == Paid)
            && (byAdmin == Rejected(DatabaseError) <==> early && !Holds(db, o) && !StockHasRoom(db, order.lines))
            && (byOwner == Rejected(OrderNotFound) <==> order.user != user)
            && (byOwner == Rejected(NotEligibleForCancel) <==> order.user == user && Holds(db, o))
            && (byOwner == Rejected(InvalidTransition) <==> order.user == user && !Holds(db, o) && !early)
            && (byOwner == Rejected(DatabaseError) <==>
                 order.user == user && !Holds(db, o) && early && !StockHasRoom(db, order.lines))
  {
    HoldingBlocks(db, o);
  }

  // ----- why a checkout is refused

  /** The refusals before the coupon is looked at, first things first. */
  lemma CheckoutRefusals(db: Db, user: nat, input: CheckoutInput, ship: ShippingConfig, now: int, today: int)
    ensures var reply := CreateFromCart(db, user, input, ship, now, today).1;
            && (!ShippingIsOffered(input, ship) ==> reply == Rejected(InvalidShipping))
            && (ShippingIsOffered(input, ship) && CartEmpty(db, user) ==> reply == Rejected(EmptyCart))
            && (ShippingIsOffered(input, ship) && !CartEmpty(db, user) && !CartAvailable(db, user, today) ==>
                 reply == Rejected(InsufficientStock))
            && (!CartEmpty(db, user) && CartAvailable(db, user, today) && input.shippingMethod == "digital"
                  && !CartAllDigital(db, user) ==>
                 reply == Rejected(InvalidShipping))
            && (reply.NewRow? || reply == Rejected(DatabaseError) || (reply.Rejected? && reply.error.CouponRejected?) ==>
                 CartIsInOrder(db, user, input, ship, today))
  {
    var lines := CartLines(db.products, db.cart, user, |db.products|);
    CheckoutLinesAreTheCart(db, user);
    EmptyLines(db, user, lines);
    AvailableLines(db, user, lines, today);
    DigitalLines(db, user, lines);
  }

  /** After that: an unknown code, a reason against the coupon itself, its limit, the customer's limit, the amounts. */
  lemma CouponRefusals(db: Db, user: nat, input: CheckoutInput, ship: ShippingConfig, now: int, today: int)
    requires CartIsInOrder(db, user, input, ship, today) && StockNonNegative(db.products)
    ensures var reply := CreateFromCart(db, user, input, ship, now, today).1;
            var goods := Subtotal(CartLines(db.products, db.cart, user, |db.products|));
            var c := NamedCoupon(db.coupons, input.couponCode);
            && (input.couponCode != "" && c.None? ==> reply == Rejected(CouponRejected(UnknownCode)))
            && (c.Some? ==>
                 var coupon := db.coupons[c.value];
                 var broken := CheckEligibility(coupon, goods, now);
                 var spent := coupon.usageLimit.Some? && coupon.usageLimit.value <= CountActive(db.redemptions, c.value);
                 var had := coupon.perUserLimit.Some?
                            && coupon.perUserLimit.value <= CountActiveForUser(db.redemptions, c.value, user);
                 && (broken.Some? ==> reply == Rejected(CouponRejected(broken.value)))
                 && (broken.None? && spent ==> reply == Rejected(CouponRejected(UsageLimitReached)))
                 && (broken.None? && !spent && had ==> reply == Rejected(CouponRejected(PerUserLimitReached))))
            && (CouponUsable(db, user, input, now) ==>
                 reply == if RowsAreSound(CheckoutOrder(db, user, input, ship, now)) then NewRow(|db.orders|)
                          else Rejected(DatabaseError))
  {
    var lines := CartLines(db.products, db.cart, user, |db.products|);
    CheckoutLinesAreTheCart(db, user);
    EmptyLines(db, user, lines);
    AvailableLines(db, user, lines, today);
    DigitalLines(db, user, lines);
    AcceptedCheckoutLeavesStockNonNegative(db, user, today);
  }
}
