/** The shop's tables as values. A table that never loses rows is a sequence, and a row's id its index. */
module Tables {
  import opened Basics
  import opened Statuses
  import opened EventKeys
  import opened Pricing

  /** The largest value of a PostgreSQL INTEGER column. */
  const MAX_INT32 := 0x7FFF_FFFF

  /** `initialStock` is not a column: it remembers the stock the product was created with. */
  datatype Product = Product(name: string, price: int, stock: int, education: bool, expiry: Option<int>,
                             initialStock: int)

  datatype Adjustment = Adjustment(product: nat, delta: int, stockBefore: int, stockAfter: int)

  /** The unique key of cart_items. */
  datatype CartKey = CartKey(user: nat, product: nat)

  /** The primary key of cart_merge_batches. */
  datatype MergeKey = MergeKey(user: nat, key: string)

  datatype Warning = ProductMissing | ClampedToStock(name: string)

  /** `code` is the upper-cased code, which is what the unique index and the look-up compare. */
  datatype Coupon = Coupon(code: string, kind: DiscountType, value: int, minOrderAmount: int,
                           usageLimit: Option<int>, perUserLimit: Option<int>,
                           startsAt: Option<int>, endsAt: Option<int>, active: bool)

  datatype Redemption = Redemption(coupon: nat, user: nat, released: bool)

  datatype Order = Order(user: nat, status: OrderStatus, payment: PaymentStatus, payMethod: PaymentMethod,
                         total: int, currency: string, lines: seq<Line>, itemsSubtotal: int, discount: int,
                         shippingFee: int, coupon: Option<nat>, createdAt: int)

  /** The latest verification event of an attempt, as the reconciliation view reports it. */
  datatype Outcome = NotChecked | VerifiedSuccess | ManualRequired | DefinitiveRejection | UncertainOutcome

  datatype Attempt = Attempt(order: nat, provider: string, environment: string, account: string,
                             authority: Option<string>, amount: int, currency: string, status: AttemptStatus,
                             refId: Option<int>, code: Option<int>, createdAt: int, outcome: Outcome)

  datatype Refund = Refund(order: nat, returnRequest: Option<nat>, amount: int, payMethod: PaymentMethod,
                           status: RefundStatus)

  datatype Return = Return(order: nat, user: nat, status: ReturnStatus)

  /**
   * The whole database. `redemptions[o]` is the redemption of order o, whose order id is unique;
   * `resetTokens` gives the customer of each
   * stored token hash; `outbox` is keyed by its unique event key; `notify` says whether the repositories were
   * configured with notifications.
   */
  datatype Db = Db(products: seq<Product>, adjustments: seq<Adjustment>,
                   cart: map<CartKey, int>, merges: map<MergeKey, seq<Warning>>,
                   coupons: seq<Coupon>, orders: seq<Order>, redemptions: seq<Option<Redemption>>,
                   attempts: seq<Attempt>, refunds: seq<Refund>, returnRequests: seq<Return>,
                   resetTokens: map<string, nat>, outbox: map<string, Event>, notify: bool)

  function EmptyDb(notify: bool): Db {
    Db([], [], map[], map[], [], [], [], [], [], [], map[], map[], notify)
  }

  datatype CouponReason =
    | UnknownCode | Inactive | NotStarted | CouponExpired | MinOrderNotMet | InvalidConfig
    | UsageLimitReached | PerUserLimitReached

  datatype Error =
    | EmptyCart | InsufficientStock | InvalidShipping | CouponRejected(reason: CouponReason) | OrderNotFound | InvalidTransition
    | PaymentRequired | RefundRequired | NotEligibleForCancel | AlreadyPaid | NotPayable | ProviderMismatch
    | PaymentInProgress | InvalidAuthority | InvalidVerification | AttemptNotFound | AlreadyProcessed
    | RefundNotFound | RefundNotEligible | AlreadyRefunded | ReturnNotFound | ReturnNotEligible | ReturnExists
    | ProductNotFound | ItemNotFound | StockNegative | InvalidInput | DuplicateCode | CouponNotFound
    | RecoveryUnavailable | DatabaseError

  datatype Reply =
    | Done
    | NewRow(id: nat)
    | Settlement(order: nat, already: bool, finalStatus: AttemptStatus)
    | Merged(warnings: seq<Warning>)
    | Cancellations(count: nat)
    | Rejected(error: Error)

  /** The provider account a payment repository is bound to. */
  datatype Gateway = Gateway(environment: string, identity: string)

  // ----- quantities in carts and orders

  function CartQuantity(cart: map<CartKey, int>, user: nat, p: nat): int {
    if CartKey(user, p) in cart then cart[CartKey(user, p)] else 0
  }

  /** How many units of product p the lines ask for. */
  function Quantity(lines: seq<Line>, p: nat): int {
    if lines == [] then 0
    else
      var l := lines[|lines| - 1];
      Quantity(lines[..|lines| - 1], p) + (if l.product == p then l.quantity else 0)
  }

  /** Units of p taken out of stock by an order: none once it is cancelled. */
  function HeldBy(p: nat): Order -> int {
    (o: Order) => if o.status == Cancelled then 0 else Quantity(o.lines, p)
  }

  function Held(orders: seq<Order>, p: nat): int {
    Sum(orders, HeldBy(p))
  }

  function DeltaFor(p: nat): Adjustment -> int {
    (a: Adjustment) => if a.product == p then a.delta else 0
  }

  function Adjusted(adjustments: seq<Adjustment>, p: nat): int {
    Sum(adjustments, DeltaFor(p))
  }

  // ----- what a transaction leaves alone

  predicate OnlyPaymentsDiffer(before: Db, after: Db) {
    && after.products == before.products && after.adjustments == before.adjustments && after.cart == before.cart
    && after.merges == before.merges && after.coupons == before.coupons && after.redemptions == before.redemptions
    && after.refunds == before.refunds && after.returnRequests == before.returnRequests
    && after.resetTokens == before.resetTokens && after.notify == before.notify
  }

  predicate OnlyRefundsDiffer(before: Db, after: Db) {
    && after.products == before.products && after.adjustments == before.adjustments && after.cart == before.cart
    && after.merges == before.merges && after.coupons == before.coupons && after.redemptions == before.redemptions
    && after.attempts == before.attempts && after.resetTokens == before.resetTokens && after.notify == before.notify
  }

  predicate OnlyOrdersDiffer(before: Db, after: Db) {
    && after.adjustments == before.adjustments && after.merges == before.merges && after.coupons == before.coupons
    && after.attempts == before.attempts && after.refunds == before.refunds
    && after.returnRequests == before.returnRequests && after.resetTokens == before.resetTokens
    && after.notify == before.notify
  }

  predicate OnlyCatalogDiffers(before: Db, after: Db) {
    && after.orders == before.orders && after.redemptions == before.redemptions
    && after.attempts == before.attempts && after.refunds == before.refunds
    && after.returnRequests == before.returnRequests && after.resetTokens == before.resetTokens
    && after.outbox == before.outbox && after.notify == before.notify
  }
}
