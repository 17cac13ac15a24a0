/** The status columns of the shop's tables and the state machines that govern them. */
module Statuses {

  datatype OrderStatus = Pending | Processing | Shipped | Delivered | Cancelled

  function OrderNext(from: OrderStatus): set<OrderStatus> {
    match from
    case Pending => {Processing, Cancelled}
    case Processing => {Shipped, Cancelled}
    case Shipped => {Delivered}
    case Delivered => {}
    case Cancelled => {}
  }

  predicate CanTransition(from: OrderStatus, to: OrderStatus) {
    to in OrderNext(from)
  }

  datatype PaymentStatus = Unpaid | PaymentFailed | Paid | Refunded

  /** The payment went through, whether or not the money was given back later. */
  predicate Settled(p: PaymentStatus) {
    p == Paid || p == Refunded
  }

  datatype PaymentMethod = Manual | ZarinPal

  predicate IsFulfillment(s: OrderStatus) {
    s == Processing || s == Shipped || s == Delivered
  }

  predicate RequiresPaidPayment(m: PaymentMethod, newStatus: OrderStatus) {
    m == ZarinPal && IsFulfillment(newStatus)
  }

  datatype AttemptStatus = AttemptPending | AttemptPaid | AttemptFailed | AttemptReconciliation | AttemptExpired

  /** The two verified outcomes. */
  predicate Verified(s: AttemptStatus) {
    s == AttemptPaid || s == AttemptReconciliation
  }

  datatype RefundStatus = RefundPending | RefundProcessing | RefundSucceeded | RefundFailed | RefundManualReview

  function RefundNext(from: RefundStatus): set<RefundStatus> {
    match from
    case RefundPending => {RefundProcessing, RefundFailed, RefundManualReview}
    case RefundProcessing => {RefundSucceeded, RefundFailed, RefundManualReview}
    case RefundManualReview => {RefundSucceeded, RefundFailed}
    case RefundSucceeded => {}
    case RefundFailed => {}
  }

  predicate RefundCanTransition(from: RefundStatus, to: RefundStatus) {
    to in RefundNext(from)
  }

  datatype ReturnStatus =
    | ReturnRequested | ReturnApproved | ReturnRejected | ReturnReceived
    | ReturnRefundPending | ReturnRefunded | ReturnRefundFailed

  function ReturnNext(from: ReturnStatus): set<ReturnStatus> {
    match from
    case ReturnRequested => {ReturnApproved, ReturnRejected}
    case ReturnApproved => {ReturnReceived}
    case ReturnReceived => {ReturnRefundPending}
    case ReturnRefundPending => {ReturnRefunded, ReturnRefundFailed}
    case _ => {}
  }

  predicate ReturnCanTransition(from: ReturnStatus, to: ReturnStatus) {
    to in ReturnNext(from)
  }
}
