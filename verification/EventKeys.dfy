/** Idempotency keys of the notification outbox, as the text the source prints. */
module EventKeys {
  import opened Statuses

  datatype OrderEventKind = Created | OrderCancelled | PaymentSucceeded | PaymentRejected

  datatype Event =
    | OrderEvent(order: nat, kind: OrderEventKind)
    | OrderStatusEvent(order: nat, status: OrderStatus)
    | ReturnEvent(returnRequest: nat, returnStatus: ReturnStatus)
    | RefundEvent(refund: nat, refundStatus: RefundStatus)
    | PasswordReset(tokenHash: string)

  // ----- decimal printing

  function Digit(d: nat): char
    requires d < 10
  {
    ('0' as int + d) as char
  }

  /** Go's %d of a non-negative integer. */
  function Decimal(n: nat): string {
    if n < 10 then [Digit(n)] else Decimal(n / 10) + [Digit(n % 10)]
  }

  ghost function DecimalValue(s: string): int {
    if s == "" then 0 else 10 * DecimalValue(s[..|s| - 1]) + (s[|s| - 1] as int - '0' as int)
  }

  lemma {:induction false} DecimalRoundTrip(n: nat)
    ensures DecimalValue(Decimal(n)) == n
    ensures ':' !in Decimal(n)
  {
    if n < 10 {
      assert Decimal(n)[..0] == "";
    } else {
      DecimalRoundTrip(n / 10);
      assert Decimal(n)[..|Decimal(n)| - 1] == Decimal(n / 10);
    }
  }

  lemma ColonPosition(s: string, x: string)
    requires ':' !in s
    ensures (s + ":" + x)[|s|] == ':'
    ensures forall i | 0 <= i < |s| :: (s + ":" + x)[i] != ':'
  {
    forall i | 0 <= i < |s| ensures (s + ":" + x)[i] != ':' {
      assert (s + ":" + x)[i] == s[i];
    }
  }

  /** A text is cut at its first colon in only one way. */
  lemma FirstColonIsUnique(s: string, t: string, x: string, y: string)
    requires ':' !in s && ':' !in t
    requires s + ":" + x == t + ":" + y
    ensures s == t && x == y
  {
    var whole := s + ":" + x;
    ColonPosition(s, x);
    ColonPosition(t, y);
    assert |s| == |t|;
    assert s == whole[..|s|] && t == whole[..|t|];
    assert x == whole[|s| + 1..] && y == whole[|t| + 1..];
  }

  // ----- the keys

  function OrderStatusName(s: OrderStatus): string {
    match s
    case Pending => "pending"
    case Processing => "processing"
    case Shipped => "shipped"
    case Delivered => "delivered"
    case Cancelled => "cancelled"
  }

  function RefundStatusName(s: RefundStatus): string {
    match s
    case RefundPending => "pending"
    case RefundProcessing => "processing"
    case RefundSucceeded => "succeeded"
    case RefundFailed => "failed"
    case RefundManualReview => "manual_review"
  }

  function ReturnStatusName(s: ReturnStatus): string {
    match s
    case ReturnRequested => "requested"
    case ReturnApproved => "approved"
    case ReturnRejected => "rejected"
    case ReturnReceived => "received"
    case ReturnRefundPending => "refund_pending"
    case ReturnRefunded => "refunded"
    case ReturnRefundFailed => "refund_failed"
  }

  function KindName(k: OrderEventKind): string {
    match k
    case Created => "created"
    case OrderCancelled => "cancelled"
    case PaymentSucceeded => "payment_succeeded"
    case PaymentRejected => "payment_failed"
  }

  function Family(e: Event): string {
    match e
    case OrderEvent(_, _) => "order"
    case OrderStatusEvent(_, _) => "order"
    case ReturnEvent(_, _) => "return_request"
    case RefundEvent(_, _) => "refund"
    case PasswordReset(_) => "password-reset"
  }

  /** What the key says after its family. */
  function Detail(e: Event): string {
    match e
    case OrderEvent(order, kind) => Decimal(order) + ":" + KindName(kind)
    case OrderStatusEvent(order, status) => Decimal(order) + ":" + ("status:" + OrderStatusName(status))
    case ReturnEvent(id, status) => Decimal(id) + ":" + ReturnStatusName(status)
    case RefundEvent(id, status) => Decimal(id) + ":" + RefundStatusName(status)
    case PasswordReset(tokenHash) => tokenHash
  }

  function Key(e: Event): string {
    Family(e) + ":" + Detail(e)
  }

  lemma NumberedDetailIsInjective(m: nat, n: nat, x: string, y: string)
    requires Decimal(m) + ":" + x == Decimal(n) + ":" + y
    ensures m == n && x == y
  {
    DecimalRoundTrip(m);
    DecimalRoundTrip(n);
    FirstColonIsUnique(Decimal(m), Decimal(n), x, y);
  }

  /** Two different notifications never share an idempotency key. */
  lemma KeyIsInjective(e: Event, f: Event)
    ensures Key(e) == Key(f) ==> e == f
  {
    if Key(e) == Key(f) {
      FirstColonIsUnique(Family(e), Family(f), Detail(e), Detail(f));
      FamilySeparates(e, f);
      match e {
        case OrderEvent(m, k) =>
          match f {
            case OrderEvent(n, l) => NumberedDetailIsInjective(m, n, KindName(k), KindName(l));
            case OrderStatusEvent(n, s) =>
              NumberedDetailIsInjective(m, n, KindName(k), "status:" + OrderStatusName(s));
              KindIsNotAStatus(k, OrderStatusName(s));
          }
        case OrderStatusEvent(m, s) =>
          match f {
            case OrderStatusEvent(n, t) =>
              NumberedDetailIsInjective(m, n, "status:" + OrderStatusName(s), "status:" + OrderStatusName(t));
              assert OrderStatusName(s) == ("status:" + OrderStatusName(s))[7..];
              assert OrderStatusName(t) == ("status:" + OrderStatusName(t))[7..];
              assert |OrderStatusName(s)| == |OrderStatusName(t)|;
              assert OrderStatusName(s)[0] == OrderStatusName(t)[0];
            case OrderEvent(n, l) =>
              NumberedDetailIsInjective(m, n, "status:" + OrderStatusName(s), KindName(l));
              KindIsNotAStatus(l, OrderStatusName(s));
          }
        case ReturnEvent(m, s) =>
          NumberedDetailIsInjective(m, f.returnRequest, ReturnStatusName(s), ReturnStatusName(f.returnStatus));
          ReturnNamesDiffer(s, f.returnStatus);
        case RefundEvent(m, s) =>
          NumberedDetailIsInjective(m, f.refund, RefundStatusName(s), RefundStatusName(f.refundStatus));
          RefundNamesDiffer(s, f.refundStatus);
        case PasswordReset(_) =>
      }
    }
  }

  lemma KindIsNotAStatus(k: OrderEventKind, name: string)
    ensures KindName(k) != "status:" + name
  {
    assert ("status:" + name)[0] == 's';
  }

  lemma FamilySeparates(e: Event, f: Event)
    requires Family(e) == Family(f)
    ensures e.ReturnEvent? == f.ReturnEvent? && e.RefundEvent? == f.RefundEvent?
    ensures e.PasswordReset? == f.PasswordReset?
  {
    assert |Family(e)| == |Family(f)|;
  }

  lemma ReturnNamesDiffer(s: ReturnStatus, t: ReturnStatus)
    ensures ReturnStatusName(s) == ReturnStatusName(t) ==> s == t
  {
    var x, y := ReturnStatusName(s), ReturnStatusName(t);
    if x == y {
      assert |x| == |y| && x[0] == y[0] && x[2] == y[2];
    }
  }

  lemma RefundNamesDiffer(s: RefundStatus, t: RefundStatus)
    ensures RefundStatusName(s) == RefundStatusName(t) ==> s == t
  {
    var x, y := RefundStatusName(s), RefundStatusName(t);
    if x == y {
      assert |x| == |y| && x[0] == y[0];
    }
  }

  /** A printed number has only digits, and a zero in front only when it is zero. */
  lemma {:induction false} DecimalIsPlain(n: nat)
    ensures Decimal(n) != "" && forall i | 0 <= i < |Decimal(n)| :: '0' <= Decimal(n)[i] <= '9'
    ensures Decimal(n)[0] == '0' <==> n == 0
  {
    if n >= 10 {
      DecimalIsPlain(n / 10);
    }
  }

  /** family:number:what */
  function Spelled(family: string, n: nat, what: string): string {
    family + ":" + (Decimal(n) + ":" + what)
  }

  /** The keys as they stand in the outbox. */
  lemma KeysInFull(n: nat, tokenHash: string)
    ensures Key(OrderEvent(n, Created)) == Spelled("order", n, "created")
    ensures Key(OrderEvent(n, OrderCancelled)) == Spelled("order", n, "cancelled")
    ensures Key(OrderEvent(n, PaymentSucceeded)) == Spelled("order", n, "payment_succeeded")
    ensures Key(OrderEvent(n, PaymentRejected)) == Spelled("order", n, "payment_failed")
    ensures Key(OrderStatusEvent(n, Pending)) == Spelled("order", n, "status:" + "pending")
    ensures Key(OrderStatusEvent(n, Processing)) == Spelled("order", n, "status:" + "processing")
    ensures Key(OrderStatusEvent(n, Shipped)) == Spelled("order", n, "status:" + "shipped")
    ensures Key(OrderStatusEvent(n, Delivered)) == Spelled("order", n, "status:" + "delivered")
    ensures Key(OrderStatusEvent(n, Cancelled)) == Spelled("order", n, "status:" + "cancelled")
    ensures Key(PasswordReset(tokenHash)) == "password-reset" + ":" + tokenHash
  {
  }

  lemma ReturnKeysInFull(n: nat)
    ensures Key(ReturnEvent(n, ReturnRequested)) == Spelled("return_request", n, "requested")
    ensures Key(ReturnEvent(n, ReturnApproved)) == Spelled("return_request", n, "approved")
    ensures Key(ReturnEvent(n, ReturnRejected)) == Spelled("return_request", n, "rejected")
    ensures Key(ReturnEvent(n, ReturnReceived)) == Spelled("return_request", n, "received")
    ensures Key(ReturnEvent(n, ReturnRefundPending)) == Spelled("return_request", n, "refund_pending")
    ensures Key(ReturnEvent(n, ReturnRefunded)) == Spelled("return_request", n, "refunded")
    ensures Key(ReturnEvent(n, ReturnRefundFailed)) == Spelled("return_request", n, "refund_failed")
  {
  }

  lemma RefundKeysInFull(n: nat)
    ensures Key(RefundEvent(n, RefundPending)) == Spelled("refund", n, "pending")
    ensures Key(RefundEvent(n, RefundProcessing)) == Spelled("refund", n, "processing")
    ensures Key(RefundEvent(n, RefundSucceeded)) == Spelled("refund", n, "succeeded")
    ensures Key(RefundEvent(n, RefundFailed)) == Spelled("refund", n, "failed")
    ensures Key(RefundEvent(n, RefundManualReview)) == Spelled("refund", n, "manual_review")
  {
  }
}
