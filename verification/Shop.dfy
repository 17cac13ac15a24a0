/** The shop as a transition system: every committed transaction, in any order and with any arguments. */
module Shop {
  import opened Basics
  import opened Statuses
  import opened Pricing
  import opened Tables
  import opened CartMerge
  import opened Orders
  import opened Payments
  import opened Refunds
  import opened Catalog
  import opened Recovery

  /** One transaction; clocks, locks held elsewhere and provider answers are arguments. */
  datatype Step =
    | DoCreateProduct(name: string, price: int, stock: int, education: bool, expiry: Option<int>)
    | DoAdjustStock(product: nat, delta: int)
    | DoUpdateProduct(product: nat, name: string, price: int, stock: int, education: bool, expiry: Option<int>)
    | DoAddItem(user: nat, product: nat, quantity: int)
    | DoUpdateItem(user: nat, product: nat, quantity: int)
    | DoDeleteItem(user: nat, product: nat)
    | DoMerge(user: nat, key: string, items: seq<MergeItem>)
    | DoCreateCoupon(coupon: Coupon)
    | DoUpdateCoupon(id: nat, coupon: Coupon)
    | DoCheckout(user: nat, input: CheckoutInput, ship: ShippingConfig, now: int, today: int)
    | DoUpdateStatus(order: nat, newStatus: OrderStatus)
    | DoCancelOwn(user: nat, order: nat)
    | DoExpireReservations(cutoff: int, locked: set<nat>, seen: seq<Attempt>)
    | DoCreateAttempt(gateway: Gateway, user: nat, order: nat, now: int)
    | DoSetAuthority(gateway: Gateway, attempt: nat, authority: string)
    | DoMarkFailed(gateway: Gateway, attempt: nat, code: Option<int>)
    | DoFinalizeVerified(gateway: Gateway, authority: string, refId: int, verifiedCode: int)
    | DoFinalizeFailed(gateway: Gateway, authority: string, code: Option<int>)
    | DoExpireRejected(gateway: Gateway, attempt: nat, cutoff: int)
    | DoCreateRefund(order: nat, returnRequest: Option<nat>, amount: int, payMethod: PaymentMethod)
    | DoUpdateRefund(refund: nat, refundStatus: RefundStatus)
    | DoCreateReturn(order: nat, user: nat)
    | DoUpdateReturn(returnId: nat, returnStatus: ReturnStatus)
    | DoQueuePasswordReset(user: nat, tokenHash: string)
    | DoPurgeResetTokens(gone: set<string>)

  ghost function Apply(db: Db, s: Step): (Db, Reply) {
    match s
    case DoCreateProduct(name, price, stock, education, expiry) =>
      CreateProduct(db, name, price, stock, education, expiry)
    case DoAdjustStock(p, delta) => AdjustStock(db, p, delta)
    case DoUpdateProduct(p, name, price, stock, education, expiry) =>
      UpdateProduct(db, p, name, price, stock, education, expiry)
    case DoAddItem(user, p, quantity) => AddItem(db, user, p, quantity)
    case DoUpdateItem(user, p, quantity) => UpdateItem(db, user, p, quantity)
    case DoDeleteItem(user, p) => DeleteItem(db, user, p)
    case DoMerge(user, key, items) => MergeGuestCart(db, user, key, items)
    case DoCreateCoupon(c) => CreateCoupon(db, c)
    case DoUpdateCoupon(i, c) => UpdateCoupon(db, i, c)
    case DoCheckout(user, input, ship, now, today) => CreateFromCart(db, user, input, ship, now, today)
    case DoUpdateStatus(o, newStatus) => UpdateStatus(db, o, newStatus)
    case DoCancelOwn(user, o) => CancelOwnOrder(db, user, o)
    case DoExpireReservations(cutoff, locked, seen) => ExpireReservations(db, cutoff, locked, seen)
    case DoCreateAttempt(g, user, o, now) => CreateAttempt(db, g, user, o, now)
    case DoSetAuthority(g, i, authority) => SetAuthority(db, g, i, authority)
    case DoMarkFailed(g, i, code) => MarkAttemptFailed(db, g, i, code)
    case DoFinalizeVerified(g, authority, refId, code) => FinalizeVerified(db, g, authority, refId, code)
    case DoFinalizeFailed(g, authority, code) => FinalizeFailed(db, g, authority, code)
    case DoExpireRejected(g, i, cutoff) => ExpireRejected(db, g, i, cutoff)
    case DoCreateRefund(o, returnRequest, amount, payMethod) => CreateRefund(db, o, returnRequest, amount, payMethod)
    case DoUpdateRefund(r, newStatus) => UpdateRefundStatus(db, r, newStatus)
    case DoCreateReturn(o, user) => CreateReturn(db, o, user)
    case DoUpdateReturn(r, newStatus) => UpdateReturnStatus(db, r, newStatus)
    case DoQueuePasswordReset(user, tokenHash) => QueuePasswordReset(db, user, tokenHash)
    case DoPurgeResetTokens(gone) => PurgeResetTokens(db, gone)
  }

  ghost function Next(db: Db, s: Step): Db {
    Apply(db, s).0
  }

  ghost function Run(db: Db, steps: seq<Step>): Db {
    if steps == [] then db else Next(Run(db, steps[..|steps| - 1]), steps[|steps| - 1])
  }

  /** Steps that touch neither orders nor attempts nor anything that hangs off them. */
  predicate IsCatalogStep(s: Step) {
    || s.DoCreateProduct? || s.DoAdjustStock? || s.DoUpdateProduct? || s.DoAddItem? || s.DoUpdateItem?
    || s.DoDeleteItem? || s.DoMerge? || s.DoCreateCoupon? || s.DoUpdateCoupon?
  }

  predicate IsAttemptStep(s: Step) {
    || s.DoCreateAttempt? || s.DoSetAuthority? || s.DoMarkFailed? || s.DoFinalizeVerified? || s.DoFinalizeFailed?
    || s.DoExpireRejected?
  }

  predicate IsRefundStep(s: Step) {
    s.DoCreateRefund? || s.DoUpdateRefund? || s.DoCreateReturn? || s.DoUpdateReturn?
  }

  predicate IsOrderStep(s: Step) {
    s.DoCheckout? || s.DoUpdateStatus? || s.DoCancelOwn? || s.DoExpireReservations?
  }

  predicate IsRecoveryStep(s: Step) {
    s.DoQueuePasswordReset? || s.DoPurgeResetTokens?
  }

  lemma StepKinds(s: Step)
    ensures IsCatalogStep(s) || IsAttemptStep(s) || IsRefundStep(s) || IsOrderStep(s) || IsRecoveryStep(s)
  {
  }
}
