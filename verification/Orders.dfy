/** Checkout, the order status machine and the three ways of cancelling, each as one committed transaction. */
module Orders {
  import opened Basics
  import opened Statuses
  import opened EventKeys
  import opened Pricing
  import opened Tables

  // ----- outbox

  /** INSERT ... ON CONFLICT (event_key) DO NOTHING, when notifications are configured. */
  function Enqueue(db: Db, e: Event): Db {
    if !db.notify || Key(e) in db.outbox then db else db.(outbox := db.outbox[Key(e) := e])
  }

  // ----- what holds an order against cancellation

  predicate Blocks(a: Attempt) {
    || a.status in {AttemptPending, AttemptPaid, AttemptReconciliation}
    || (a.authority.Some? && a.status != AttemptExpired)
  }

  predicate HasBlockingAttempt(attempts: seq<Attempt>, o: nat) {
    exists i | 0 <= i < |attempts| :: attempts[i].order == o && Blocks(attempts[i])
  }

  predicate PaymentBlocksCancellation(attempts: seq<Attempt>, o: nat, payment: PaymentStatus) {
    Settled(payment) || HasBlockingAttempt(attempts, o)
  }

  // ----- cancellation

  function Restored(products: seq<Product>, lines: seq<Line>): seq<Product> {
    seq(|products|, p requires 0 <= p < |products| =>
      products[p].(stock := products[p].stock + Quantity(lines, p)))
  }

  /** No INTEGER overflow while stock is put back. */
  predicate Restorable(products: seq<Product>, lines: seq<Line>) {
    forall p | 0 <= p < |products| :: products[p].stock + Quantity(lines, p) <= MAX_INT32
  }

  function Release(redemptions: seq<Option<Redemption>>, o: nat): seq<Option<Redemption>> {
    if o < |redemptions| && redemptions[o].Some? && !redemptions[o].value.released
    then redemptions[o := Some(redemptions[o].value.(released := true))]
    else redemptions
  }

  function SetStatus(orders: seq<Order>, o: nat, s: OrderStatus): seq<Order>
    requires o < |orders|
  {
    orders[o := orders[o].(status := s)]
  }

  /** What every cancellation path does: stock, coupon, status and notification together. */
  function CancelOrder(db: Db, o: nat): (after: Db)
    requires o < |db.orders|
    ensures OnlyOrdersDiffer(db, after) && after.cart == db.cart
  {
    Enqueue(db.(products := Restored(db.products, db.orders[o].lines),
                redemptions := Release(db.redemptions, o),
                orders := SetStatus(db.orders, o, Cancelled)),
            OrderEvent(o, OrderCancelled))
  }

  function UpdateStatus(db: Db, o: nat, newStatus: OrderStatus): (result: (Db, Reply))
    ensures OnlyOrdersDiffer(db, result.0)
  {
    if o >= |db.orders| then (db, Rejected(OrderNotFound))
    else
      var order := db.orders[o];
      if !CanTransition(order.status, newStatus) then (db, Rejected(InvalidTransition))
      else if RequiresPaidPayment(order.payMethod, newStatus) && order.payment != Paid then
        (db, Rejected(PaymentRequired))
      else if newStatus != Cancelled then
        (Enqueue(db.(orders := SetStatus(db.orders, o, newStatus)), OrderStatusEvent(o, newStatus)), Done)
      else if PaymentBlocksCancellation(db.attempts, o, order.payment) then
        (db, Rejected(if order.payment == Paid then RefundRequired else InvalidTransition))
      else if !Restorable(db.products, order.lines) then (db, Rejected(DatabaseError))
      else (CancelOrder(db, o), Done)
  }

  function CancelOwnOrder(db: Db, user: nat, o: nat): (result: (Db, Reply))
    ensures OnlyOrdersDiffer(db, result.0)
  {
    if o >= |db.orders| || db.orders[o].user != user then (db, Rejected(OrderNotFound))
    else
      var order := db.orders[o];
      if PaymentBlocksCancellation(db.attempts, o, order.payment) then (db, Rejected(NotEligibleForCancel))
      else if !CanTransition(order.status, Cancelled) then (db, Rejected(InvalidTransition))
      else if !Restorable(db.products, order.lines) then (db, Rejected(DatabaseError))
      else (CancelOrder(db, o), Done)
  }

  const EXPIRY_BATCH := 20

  predicate Expirable(orders: seq<Order>, seen: seq<Attempt>, o: nat, cutoff: int) {
    && o < |orders|
    && orders[o].status == Pending
    && !Settled(orders[o].payment)
    && orders[o].createdAt < cutoff
    && !HasBlockingAttempt(seen, o)
  }

  /** The rows of the expiry query from order `from` on: the first `limit` expirable ones nobody has locked. */
  function ExpiryPicks(orders: seq<Order>, seen: seq<Attempt>, cutoff: int, locked: set<nat>, from: nat, limit: nat)
    : (picks: seq<nat>)
    ensures forall i | 0 <= i < |picks| :: from <= picks[i] && Expirable(orders, seen, picks[i], cutoff)
    ensures forall i, j | 0 <= i < j < |picks| :: picks[i] < picks[j]
    ensures |picks| <= limit
    decreases |orders| - from
  {
    if limit == 0 || from >= |orders| then []
    else if from !in locked && Expirable(orders, seen, from, cutoff) then
      [from] + ExpiryPicks(orders, seen, cutoff, locked, from + 1, limit - 1)
    else ExpiryPicks(orders, seen, cutoff, locked, from + 1, limit)
  }

  /** The tables and the tally of an expiry run; None when the database refuses one of the updates. */
  function CancelEach(db: Db, picks: seq<nat>, count: nat): (r: Option<(Db, nat)>)
    requires forall i | 0 <= i < |picks| :: picks[i] < |db.orders|
    ensures r.Some? ==> OnlyOrdersDiffer(db, r.value.0) && r.value.0.cart == db.cart
    decreases picks
  {
    if picks == [] then Some((db, count))
    else
      var o := picks[0];
      if PaymentBlocksCancellation(db.attempts, o, db.orders[o].payment) then CancelEach(db, picks[1..], count)
      else if !Restorable(db.products, db.orders[o].lines) then None
      else CancelEach(CancelOrder(db, o), picks[1..], count + 1)
  }

  /**
   * `seen` is the attempts table as the query's snapshot saw it, before the rows were locked: it may
   * miss attempts that were committed in between.
   */
  function ExpireReservations(db: Db, cutoff: int, locked: set<nat>, seen: seq<Attempt>): (result: (Db, Reply))
    ensures OnlyOrdersDiffer(db, result.0)
  {
    match CancelEach(db, ExpiryPicks(db.orders, seen, cutoff, locked, 0, EXPIRY_BATCH), 0)
    case None => (db, Rejected(DatabaseError))
    case Some((after, count)) => (after, Cancellations(count))
  }

  // ----- coupons

  function ActiveFor(c: nat): Option<Redemption> -> int {
    (r: Option<Redemption>) => if r.Some? && r.value.coupon == c && !r.value.released then 1 else 0
  }

  function ActiveForUser(c: nat, user: nat): Option<Redemption> -> int {
    (r: Option<Redemption>) =>
      if r.Some? && r.value.coupon == c && r.value.user == user && !r.value.released then 1 else 0
  }

  function CountActive(redemptions: seq<Option<Redemption>>, c: nat): int {
    Sum(redemptions, ActiveFor(c))
  }

  function CountActiveForUser(redemptions: seq<Option<Redemption>>, c: nat, user: nat): int {
    Sum(redemptions, ActiveForUser(c, user))
  }

  function FindCoupon(coupons: seq<Coupon>, code: string): (r: Option<nat>)
    ensures r.Some? ==> r.value < |coupons| && coupons[r.value].code == code
    ensures r.None? ==> forall i | 0 <= i < |coupons| :: coupons[i].code != code
  {
    if coupons == [] then None
    else if coupons[|coupons| - 1].code == code then Some(|coupons| - 1)
    else FindCoupon(coupons[..|coupons| - 1], code)
  }

  /** The coupon a checkout names, if it names one that exists. */
  function NamedCoupon(coupons: seq<Coupon>, code: string): (c: Option<nat>)
    ensures c.Some? ==> code != "" && c.value < |coupons| && coupons[c.value].code == code
    ensures c.None? ==> code == "" || forall i | 0 <= i < |coupons| :: coupons[i].code != code
  {
    if code == "" then None else FindCoupon(coupons, code)
  }

  function CheckEligibility(c: Coupon, itemsSubtotal: int, now: int): Option<CouponReason> {
    if !c.active then Some(Inactive)
    else if c.startsAt.Some? && now < c.startsAt.value then Some(NotStarted)
    else if c.endsAt.Some? && now > c.endsAt.value then Some(CouponExpired)
    else if itemsSubtotal < c.minOrderAmount then Some(MinOrderNotMet)
    else if c.kind.OtherType? then Some(InvalidConfig)
    else if c.kind.Percent? && (c.value < 1 || c.value > 100) then Some(InvalidConfig)
    else if c.kind.Fixed? && c.value <= 0 then Some(InvalidConfig)
    else None
  }

  /** Why coupon c may not be redeemed now, including the usage limits. */
  function Ineligibility(db: Db, c: nat, user: nat, itemsSubtotal: int, now: int): Option<CouponReason>
    requires c < |db.coupons|
  {
    var coupon := db.coupons[c];
    var broken := CheckEligibility(coupon, itemsSubtotal, now);
    if broken.Some? then broken
    else if coupon.usageLimit.Some? && CountActive(db.redemptions, c) >= coupon.usageLimit.value then
      Some(UsageLimitReached)
    else if coupon.perUserLimit.Some? && CountActiveForUser(db.redemptions, c, user) >= coupon.perUserLimit.value then
      Some(PerUserLimitReached)
    else None
  }

  // ----- checkout

  datatype CheckoutInput = CheckoutInput(shippingMethod: string, couponCode: string)

  /** The user's cart lines for the products below n, in ascending product order. */
  function CartLines(products: seq<Product>, cart: map<CartKey, int>, user: nat, n: nat): seq<Line>
    requires n <= |products|
  {
    if n == 0 then []
    else
      CartLines(products, cart, user, n - 1)
      + if CartKey(user, n - 1) in cart
        then [Line(n - 1, products[n - 1].price, cart[CartKey(user, n - 1)])]
        else []
  }

  predicate IsExpired(p: Product, today: int) {
    p.expiry.Some? && p.expiry.value < today
  }

  predicate Purchasable(products: seq<Product>, lines: seq<Line>, today: int) {
    forall i | 0 <= i < |lines| ::
      && lines[i].product < |products|
      && lines[i].quantity <= products[lines[i].product].stock
      && !IsExpired(products[lines[i].product], today)
  }

  predicate AllDigital(products: seq<Product>, lines: seq<Line>) {
    forall i | 0 <= i < |lines| :: lines[i].product < |products| && products[lines[i].product].education
  }

  function Taken(products: seq<Product>, lines: seq<Line>): seq<Product> {
    seq(|products|, p requires 0 <= p < |products| =>
      products[p].(stock := products[p].stock - Quantity(lines, p)))
  }

  function WithoutUser(cart: map<CartKey, int>, user: nat): map<CartKey, int> {
    map k | k in cart && k.user != user :: cart[k]
  }

  /** The CHECK constraints on an order row and on an order item row. */
  predicate HeaderAccepted(order: Order) {
    0 <= order.total && 0 <= order.itemsSubtotal && 0 <= order.shippingFee && 0 <= order.discount
  }

  predicate ItemAccepted(l: Line) {
    0 <= l.price && 0 < l.quantity && 0 <= Wrap(l.price * l.quantity)
  }

  predicate OrderRowAccepted(order: Order) {
    HeaderAccepted(order) && forall i | 0 <= i < |order.lines| :: ItemAccepted(order.lines[i])
  }

  predicate StockNonNegative(products: seq<Product>) {
    forall p | 0 <= p < |products| :: 0 <= products[p].stock
  }

  function NewOrder(db: Db, user: nat, shippingMethod: string, ship: ShippingConfig, lines: seq<Line>,
                    coupon: Option<nat>, now: int): Order
    requires coupon.Some? ==> coupon.value < |db.coupons|
  {
    var itemsSubtotal := Subtotal(lines);
    var discount :=
      if coupon.None? then 0
      else CalculateDiscount(db.coupons[coupon.value].kind, db.coupons[coupon.value].value, itemsSubtotal);
    var fee := Fee(ship, shippingMethod, Wrap(itemsSubtotal - discount));
    var shippingFee := if fee.Some? then fee.value else 0;
    Order(user, Pending, Unpaid, Manual, Total(itemsSubtotal, discount, shippingFee), "IRR", lines,
          itemsSubtotal, discount, shippingFee, coupon, now)
  }

  /** The tables after an accepted checkout. */
  function PlaceOrder(db: Db, order: Order): (after: Db)
    ensures OnlyOrdersDiffer(db, after)
  {
    var redemption :=
      if order.coupon.Some? then Some(Redemption(order.coupon.value, order.user, false)) else None;
    Enqueue(db.(orders := db.orders + [order],
                redemptions := db.redemptions + [redemption],
                products := Taken(db.products, order.lines),
                cart := WithoutUser(db.cart, order.user)),
            OrderEvent(|db.orders|, Created))
  }

  /** The writing half of checkout: the CHECK constraints accept all rows, or nothing is written. */
  function InsertOrder(db: Db, order: Order): (result: (Db, Reply))
    ensures OnlyOrdersDiffer(db, result.0)
  {
    if !OrderRowAccepted(order) || !StockNonNegative(Taken(db.products, order.lines)) then
      (db, Rejected(DatabaseError))
    else (PlaceOrder(db, order), NewRow(|db.orders|))
  }

  function CreateFromCart(db: Db, user: nat, input: CheckoutInput, ship: ShippingConfig, now: int, today: int)
    : (result: (Db, Reply))
    ensures OnlyOrdersDiffer(db, result.0)
  {
    var lines := CartLines(db.products, db.cart, user, |db.products|);
    if Fee(ship, input.shippingMethod, 0).None? then (db, Rejected(InvalidShipping))
    else if lines == [] then (db, Rejected(EmptyCart))
    else if !Purchasable(db.products, lines, today) then (db, Rejected(InsufficientStock))
    else if input.shippingMethod == "digital" && !AllDigital(db.products, lines) then (db, Rejected(InvalidShipping))
    else
      var shippingMethod := if AllDigital(db.products, lines) then "digital" else input.shippingMethod;
      var coupon := NamedCoupon(db.coupons, input.couponCode);
      if input.couponCode != "" && coupon.None? then (db, Rejected(CouponRejected(UnknownCode)))
      else
        var reason :=
          if coupon.None? then None else Ineligibility(db, coupon.value, user, Subtotal(lines), now);
        if reason.Some? then (db, Rejected(CouponRejected(reason.value)))
        else
          InsertOrder(db, NewOrder(db, user, shippingMethod, ship, lines, coupon, now))
  }
}
