/** What every transaction keeps about orders and their payment attempts. */
module PaymentInvariant {
  import opened Basics
  import opened Statuses
  import opened EventKeys
  import opened Tables
  import opened Orders
  import opened Payments

  /** The facts about one attempt and its order. */
  ghost predicate AttemptInv(orders: seq<Order>, a: Attempt) {
    && a.order < |orders|
    && a.provider == "zarinpal"
    && a.currency == "IRR" && orders[a.order].currency == "IRR"
    && a.amount == orders[a.order].total && a.amount >= MINIMUM_AMOUNT
    && orders[a.order].payMethod == ZarinPal
    && (a.refId.Some? <==> Verified(a.status))
    && (Verified(a.status) ==>
         a.authority.Some? && a.refId.value > 0 && a.code in {Some(CODE_SUCCESS), Some(CODE_ALREADY_VERIFIED)})
    && (a.status == AttemptFailed ==> a.authority.None?)
    && (a.status == AttemptPending ==> orders[a.order].status == Pending && !Settled(orders[a.order].payment))
    && (a.status == AttemptPaid ==> orders[a.order].status != Cancelled && Settled(orders[a.order].payment))
  }

  predicate Live(a: Attempt) {
    a.status == AttemptPending || a.status == AttemptPaid
  }

  ghost predicate HasPaidAttempt(attempts: seq<Attempt>, o: nat) {
    exists i | 0 <= i < |attempts| :: attempts[i].order == o && attempts[i].status == AttemptPaid
  }

  /**
   * A settled order has a paid attempt, no gateway order is fulfilled before it is settled, and nothing
   * ever sets an order's payment to failed.
   */
  ghost predicate OrderInv(o: Order, paidAttempt: bool) {
    && o.payment != PaymentFailed
    && (Settled(o.payment) ==> paidAttempt)
    && (o.payMethod == ZarinPal && IsFulfillment(o.status) ==> Settled(o.payment))
  }

  /** Two different attempts never compete for an order, an authority or a provider reference. */
  ghost predicate Compatible(a: Attempt, b: Attempt) {
    && (a.order == b.order ==> !(Live(a) && Live(b)))
    && (a.authority.Some? ==> a.authority != b.authority)
    && (a.status == AttemptPaid && b.status == AttemptPaid ==> !SameReference(a, b, b.refId.GetOr(0)))
  }

  ghost predicate PaymentInv(orders: seq<Order>, attempts: seq<Attempt>) {
    && (forall i | 0 <= i < |attempts| :: AttemptInv(orders, attempts[i]))
    && (forall i, j | 0 <= i < |attempts| && 0 <= j < |attempts| && i != j :: Compatible(attempts[i], attempts[j]))
    && (forall o | 0 <= o < |orders| :: OrderInv(orders[o], HasPaidAttempt(attempts, o)))
  }

  // ----- consequences

  /** Settled exactly when there is a paid attempt, which is then the only one. */
  lemma SettledExactlyWhenOnePaidAttempt(orders: seq<Order>, attempts: seq<Attempt>, o: nat)
    requires PaymentInv(orders, attempts) && o < |orders|
    ensures Settled(orders[o].payment) <==> HasPaidAttempt(attempts, o)
    ensures forall i, j | 0 <= i < |attempts| && 0 <= j < |attempts|
                          && attempts[i].order == o && attempts[i].status == AttemptPaid
                          && attempts[j].order == o && attempts[j].status == AttemptPaid :: i == j
  {
    assert OrderInv(orders[o], HasPaidAttempt(attempts, o));
    if HasPaidAttempt(attempts, o) {
      var i :| 0 <= i < |attempts| && attempts[i].order == o && attempts[i].status == AttemptPaid;
      assert AttemptInv(orders, attempts[i]);
    }
    forall i, j | 0 <= i < |attempts| && 0 <= j < |attempts|
                  && attempts[i].order == o && attempts[i].status == AttemptPaid
                  && attempts[j].order == o && attempts[j].status == AttemptPaid
      ensures i == j
    {
      var a, b := attempts[i], attempts[j];
      assert i != j ==> Compatible(a, b);
    }
  }

  /** A cancelled order is not settled and can no longer be paid: its attempts have all ended without payment. */
  lemma CancelledOrderIsClosed(orders: seq<Order>, attempts: seq<Attempt>, o: nat)
    requires PaymentInv(orders, attempts) && o < |orders| && orders[o].status == Cancelled
    ensures !Settled(orders[o].payment)
    ensures forall i | 0 <= i < |attempts| && attempts[i].order == o ::
              attempts[i].status in {AttemptFailed, AttemptExpired, AttemptReconciliation}
  {
    SettledExactlyWhenOnePaidAttempt(orders, attempts, o);
    forall i | 0 <= i < |attempts| && attempts[i].order == o
      ensures attempts[i].status in {AttemptFailed, AttemptExpired, AttemptReconciliation}
    {
      assert AttemptInv(orders, attempts[i]);
    }
  }

  // ----- preservation, one operation at a time

  /** Changing an order in ways its attempts do not depend on. */
  lemma OrderChangeKeeps(orders: seq<Order>, attempts: seq<Attempt>, o: nat, order: Order)
    requires PaymentInv(orders, attempts) && o < |orders|
    requires order.total == orders[o].total && order.currency == orders[o].currency
    requires orders[o].payMethod == ZarinPal ==> order.payMethod == ZarinPal
    requires forall i | 0 <= i < |attempts| && attempts[i].order == o :: AttemptInv(orders[o := order], attempts[i])
    requires OrderInv(order, HasPaidAttempt(attempts, o))
    ensures PaymentInv(orders[o := order], attempts)
  {
    var after := orders[o := order];
    forall i | 0 <= i < |attempts| ensures AttemptInv(after, attempts[i]) {
      assert AttemptInv(orders, attempts[i]);
    }
    forall k | 0 <= k < |after| ensures OrderInv(after[k], HasPaidAttempt(attempts, k)) {
      assert OrderInv(orders[k], HasPaidAttempt(attempts, k));
    }
  }

  lemma StatusChangeKeeps(orders: seq<Order>, attempts: seq<Attempt>, o: nat, s: OrderStatus)
    requires PaymentInv(orders, attempts) && o < |orders|
    requires CanTransition(orders[o].status, s)
    requires RequiresPaidPayment(orders[o].payMethod, s) ==> orders[o].payment == Paid
    requires s == Cancelled ==> !PaymentBlocksCancellation(attempts, o, orders[o].payment)
    ensures PaymentInv(SetStatus(orders, o, s), attempts)
  {
    var after := SetStatus(orders, o, s);
    assert OrderInv(orders[o], HasPaidAttempt(attempts, o));
    forall i | 0 <= i < |attempts| && attempts[i].order == o ensures AttemptInv(after, attempts[i]) {
      assert AttemptInv(orders, attempts[i]);
      assert s == Cancelled ==> !Blocks(attempts[i]);
    }
    OrderChangeKeeps(orders, attempts, o, orders[o].(status := s));
  }

  lemma NewOrderKeeps(orders: seq<Order>, attempts: seq<Attempt>, order: Order)
    requires PaymentInv(orders, attempts)
    requires order.status == Pending && order.payment == Unpaid
    ensures PaymentInv(orders + [order], attempts)
  {
    var after := orders + [order];
    forall i | 0 <= i < |attempts| ensures AttemptInv(after, attempts[i]) {
      assert AttemptInv(orders, attempts[i]);
    }
    forall k | 0 <= k < |after| ensures OrderInv(after[k], HasPaidAttempt(attempts, k)) {
      assert k < |orders| ==> OrderInv(orders[k], HasPaidAttempt(attempts, k));
    }
  }

  /** Replacing attempt i by one that keeps its order and fits with the others. */
  lemma AttemptChangeKeeps(orders: seq<Order>, attempts: seq<Attempt>, i: nat, a: Attempt)
    requires PaymentInv(orders, attempts) && i < |attempts|
    requires a.order == attempts[i].order && AttemptInv(orders, a)
    requires attempts[i].status == AttemptPaid ==> a.status == AttemptPaid
    requires forall j | 0 <= j < |attempts| && j != i :: Compatible(attempts[j], a) && Compatible(a, attempts[j])
    ensures PaymentInv(orders, attempts[i := a])
  {
    var after := attempts[i := a];
    forall k | 0 <= k < |after| ensures AttemptInv(orders, after[k]) {
      assert k != i ==> AttemptInv(orders, attempts[k]);
    }
    forall j, k | 0 <= j < |after| && 0 <= k < |after| && j != k ensures Compatible(after[j], after[k]) {
      assert Compatible(attempts[j], attempts[k]);
    }
    forall o | 0 <= o < |orders| ensures OrderInv(orders[o], HasPaidAttempt(after, o)) {
      assert OrderInv(orders[o], HasPaidAttempt(attempts, o));
      if HasPaidAttempt(attempts, o) {
        var k :| 0 <= k < |attempts| && attempts[k].order == o && attempts[k].status == AttemptPaid;
        assert after[k].order == o && after[k].status == AttemptPaid;
      }
    }
  }

  lemma NewAttemptKeeps(orders: seq<Order>, attempts: seq<Attempt>, a: Attempt)
    requires PaymentInv(orders, attempts)
    requires AttemptInv(orders, a) && a.status == AttemptPending && a.authority.None?
    requires !HasBlockingAttempt(attempts, a.order)
    ensures PaymentInv(orders, attempts + [a])
  {
    var after := attempts + [a];
    forall k | 0 <= k < |after| ensures AttemptInv(orders, after[k]) {
      assert k < |attempts| ==> AttemptInv(orders, attempts[k]);
    }
    forall j, k | 0 <= j < |after| && 0 <= k < |after| && j != k ensures Compatible(after[j], after[k]) {
      if j < |attempts| && k < |attempts| {
        assert Compatible(attempts[j], attempts[k]);
      } else {
        assert j < |attempts| ==> !(attempts[j].order == a.order && Blocks(attempts[j]));
        assert k < |attempts| ==> !(attempts[k].order == a.order && Blocks(attempts[k]));
      }
    }
    forall o | 0 <= o < |orders| ensures OrderInv(orders[o], HasPaidAttempt(after, o)) {
      assert OrderInv(orders[o], HasPaidAttempt(attempts, o));
      if HasPaidAttempt(attempts, o) {
        var k :| 0 <= k < |attempts| && attempts[k].order == o && attempts[k].status == AttemptPaid;
        assert after[k].order == o && after[k].status == AttemptPaid;
      }
    }
  }

  // ----- the payment transactions

  lemma CreateAttemptKeeps(db: Db, g: Gateway, user: nat, o: nat, now: int)
    requires PaymentInv(db.orders, db.attempts)
    ensures var after := CreateAttempt(db, g, user, o, now).0;
            PaymentInv(after.orders, after.attempts)
  {
    var (after, reply) := CreateAttempt(db, g, user, o, now);
    if reply.NewRow? {
      var order := db.orders[o].(payMethod := ZarinPal);
      assert OrderInv(db.orders[o], HasPaidAttempt(db.attempts, o));
      forall i | 0 <= i < |db.attempts| && db.attempts[i].order == o
        ensures AttemptInv(db.orders[o := order], db.attempts[i])
      {
        assert AttemptInv(db.orders, db.attempts[i]);
      }
      OrderChangeKeeps(db.orders, db.attempts, o, order);
      NewAttemptKeeps(after.orders, db.attempts, after.attempts[|db.attempts|]);
    }
  }

  lemma SetAuthorityKeeps(db: Db, g: Gateway, i: nat, authority: string)
    requires PaymentInv(db.orders, db.attempts)
    ensures PaymentInv(db.orders, SetAuthority(db, g, i, authority).0.attempts)
  {
    var (after, reply) := SetAuthority(db, g, i, authority);
    if reply.Done? {
      var a := after.attempts[i];
      var others := db.attempts[i := db.attempts[i].(authority := None)];
      assert AttemptInv(db.orders, db.attempts[i]);
      forall j | 0 <= j < |db.attempts| && j != i
        ensures Compatible(db.attempts[j], a) && Compatible(a, db.attempts[j])
      {
        assert Compatible(db.attempts[j], db.attempts[i]) && Compatible(db.attempts[i], db.attempts[j]);
        assert others[j].authority != Some(authority);
      }
      AttemptChangeKeeps(db.orders, db.attempts, i, a);
    }
  }

  /** Failing, expiring or annotating an attempt only ever removes competition. */
  lemma RetiringKeeps(orders: seq<Order>, attempts: seq<Attempt>, i: nat, a: Attempt)
    requires PaymentInv(orders, attempts) && i < |attempts|
    requires a.order == attempts[i].order && AttemptInv(orders, a)
    requires a.authority == attempts[i].authority && a.refId == attempts[i].refId
    requires attempts[i].status != AttemptPaid
    requires a.status == attempts[i].status || a.status in {AttemptFailed, AttemptExpired}
    ensures PaymentInv(orders, attempts[i := a])
  {
    forall j | 0 <= j < |attempts| && j != i
      ensures Compatible(attempts[j], a) && Compatible(a, attempts[j])
    {
      assert Compatible(attempts[j], attempts[i]) && Compatible(attempts[i], attempts[j]);
    }
    AttemptChangeKeeps(orders, attempts, i, a);
  }

  lemma MarkAttemptFailedKeeps(db: Db, g: Gateway, i: nat, code: Option<int>)
    requires PaymentInv(db.orders, db.attempts)
    ensures PaymentInv(db.orders, MarkAttemptFailed(db, g, i, code).0.attempts)
  {
    var (after, reply) := MarkAttemptFailed(db, g, i, code);
    if reply.Done? {
      assert AttemptInv(db.orders, db.attempts[i]);
      RetiringKeeps(db.orders, db.attempts, i, after.attempts[i]);
    }
  }

  lemma ExpireRejectedKeeps(db: Db, g: Gateway, i: nat, cutoff: int)
    requires PaymentInv(db.orders, db.attempts)
    ensures PaymentInv(db.orders, ExpireRejected(db, g, i, cutoff).0.attempts)
  {
    var (after, reply) := ExpireRejected(db, g, i, cutoff);
    if reply.Done? {
      assert AttemptInv(db.orders, db.attempts[i]);
      RetiringKeeps(db.orders, db.attempts, i, after.attempts[i]);
    }
  }

  lemma FinalizeFailedKeeps(db: Db, g: Gateway, authority: string, code: Option<int>)
    requires PaymentInv(db.orders, db.attempts)
    ensures PaymentInv(db.orders, FinalizeFailed(db, g, authority, code).0.attempts)
  {
    var (after, reply) := FinalizeFailed(db, g, authority, code);
    if reply.Settlement? && !reply.already {
      var i := FindAttempt(db.attempts, authority).value;
      assert AttemptInv(db.orders, db.attempts[i]);
      RetiringKeeps(db.orders, db.attempts, i, after.attempts[i]);
    }
  }

  /**
   * The outcome of a verified payment, exactly. Of all the checks the transaction makes, two can
   * decide: it settles the order if and only if the attempt is still pending and no paid attempt
   * carries the same provider reference. The two rows-affected guards never fire.
   */
  lemma VerifiedOutcome(db: Db, g: Gateway, authority: string, refId: int, code: int)
    requires PaymentInv(db.orders, db.attempts)
    requires refId > 0 && code in {CODE_SUCCESS, CODE_ALREADY_VERIFIED}
    requires FindAttempt(db.attempts, authority).Some?
    requires var a := db.attempts[FindAttempt(db.attempts, authority).value];
             Matches(g, a) && !Verified(a.status)
    ensures var i := FindAttempt(db.attempts, authority).value;
            var a := db.attempts[i];
            var settles := && a.status == AttemptPending
                           && !exists j | 0 <= j < |db.attempts| ::
                                db.attempts[j].status == AttemptPaid && SameReference(db.attempts[j], a, refId);
            && FinalizeVerified(db, g, authority, refId, code).1
               == Settlement(a.order, false, if settles then AttemptPaid else AttemptReconciliation)
            && (a.status != AttemptPending ==> a.status == AttemptExpired)
  {
    var i := FindAttempt(db.attempts, authority).value;
    var a := db.attempts[i];
    assert AttemptInv(db.orders, a);
    assert a.status in {AttemptPending, AttemptExpired};
    if a.status == AttemptPending {
      forall j | 0 <= j < |db.attempts| && j != i && db.attempts[j].status == AttemptPaid
        ensures db.attempts[j].order != a.order
      {
        assert Compatible(db.attempts[j], a);
      }
      var clash := exists j | 0 <= j < |db.attempts| ::
                     db.attempts[j].status == AttemptPaid && SameReference(db.attempts[j], a, refId);
      assert ConflictingPayment(db.attempts, i, refId) == clash;
    }
  }

  lemma RecordVerifiedKeeps(db: Db, i: nat, refId: int, code: int)
    requires PaymentInv(db.orders, db.attempts) && i < |db.attempts| && !Verified(db.attempts[i].status)
    requires db.attempts[i].order < |db.orders|
    requires refId > 0 && code in {CODE_SUCCESS, CODE_ALREADY_VERIFIED}
    ensures var after := RecordVerified(db, i, refId, code).0;
            PaymentInv(after.orders, after.attempts)
  {
    var (after, reply) := RecordVerified(db, i, refId, code);
    var a := db.attempts[i];
    if reply.Settlement? {
      var marked := WithVerdict(a, reply.finalStatus, refId, code);
      assert AttemptInv(db.orders, a);
      if reply.finalStatus == AttemptPaid {
        SettlingKeeps(db.orders, db.attempts, i, marked, after.orders[a.order]);
      } else {
        ReconciliationKeeps(db.orders, db.attempts, i, marked);
      }
    }
  }

  lemma ReconciliationKeeps(orders: seq<Order>, attempts: seq<Attempt>, i: nat, marked: Attempt)
    requires PaymentInv(orders, attempts) && i < |attempts| && AttemptInv(orders, marked)
    requires marked.order == attempts[i].order && marked.authority == attempts[i].authority
    requires attempts[i].status != AttemptPaid && marked.status == AttemptReconciliation
    ensures PaymentInv(orders, attempts[i := marked])
  {
    forall j | 0 <= j < |attempts| && j != i
      ensures Compatible(attempts[j], marked) && Compatible(marked, attempts[j])
    {
      assert Compatible(attempts[j], attempts[i]) && Compatible(attempts[i], attempts[j]);
    }
    AttemptChangeKeeps(orders, attempts, i, marked);
  }

  lemma FinalizeVerifiedKeeps(db: Db, g: Gateway, authority: string, refId: int, code: int)
    requires PaymentInv(db.orders, db.attempts)
    ensures var after := FinalizeVerified(db, g, authority, refId, code).0;
            PaymentInv(after.orders, after.attempts)
  {
    var i := FindAttempt(db.attempts, authority);
    if && refId > 0 && code in {CODE_SUCCESS, CODE_ALREADY_VERIFIED} && i.Some?
       && db.attempts[i.value].order < |db.orders| && !Verified(db.attempts[i.value].status) {
      RecordVerifiedKeeps(db, i.value, refId, code);
    }
  }

  /** A pending attempt becomes paid and its order settled, in one step. */
  lemma SettlingKeeps(orders: seq<Order>, attempts: seq<Attempt>, i: nat, paid: Attempt, order: Order)
    requires PaymentInv(orders, attempts) && i < |attempts| && attempts[i].order < |orders|
    requires attempts[i].status in {AttemptPending, AttemptFailed}
    requires paid.refId.Some? && paid.refId.value > 0
    requires paid.code in {Some(CODE_SUCCESS), Some(CODE_ALREADY_VERIFIED)} && paid.authority.Some?
    requires paid == attempts[i].(status := AttemptPaid, refId := paid.refId, code := paid.code, outcome := paid.outcome)
    requires order == orders[attempts[i].order].(payment := Paid, payMethod := ZarinPal)
    requires !ConflictingPayment(attempts, i, paid.refId.value)
    ensures PaymentInv(orders[attempts[i].order := order], attempts[i := paid])
  {
    var o := attempts[i].order;
    var orders', attempts' := orders[o := order], attempts[i := paid];
    assert AttemptInv(orders, attempts[i]);
    forall k | 0 <= k < |attempts'| ensures AttemptInv(orders', attempts'[k]) {
      assert AttemptInv(orders, attempts[k]);
      assert k != i ==> Compatible(attempts[k], attempts[i]);
    }
    forall j, k | 0 <= j < |attempts'| && 0 <= k < |attempts'| && j != k
      ensures Compatible(attempts'[j], attempts'[k])
    {
      assert Compatible(attempts[j], attempts[k]);
    }
    forall k | 0 <= k < |orders'| ensures OrderInv(orders'[k], HasPaidAttempt(attempts', k)) {
      assert OrderInv(orders[k], HasPaidAttempt(attempts, k));
      if k == o {
        assert attempts'[i].order == o && attempts'[i].status == AttemptPaid;
      } else if HasPaidAttempt(attempts, k) {
        var j :| 0 <= j < |attempts| && attempts[j].order == k && attempts[j].status == AttemptPaid;
        assert attempts'[j].order == k && attempts'[j].status == AttemptPaid;
      }
    }
  }

  /** Refunding a paid order keeps it settled. */
  lemma RefundingKeeps(orders: seq<Order>, attempts: seq<Attempt>, o: nat)
    requires PaymentInv(orders, attempts) && o < |orders| && orders[o].payment == Paid
    ensures PaymentInv(orders[o := orders[o].(payment := Refunded)], attempts)
  {
    var order := orders[o].(payment := Refunded);
    assert OrderInv(orders[o], HasPaidAttempt(attempts, o));
    forall i | 0 <= i < |attempts| && attempts[i].order == o ensures AttemptInv(orders[o := order], attempts[i]) {
      assert AttemptInv(orders, attempts[i]);
    }
    OrderChangeKeeps(orders, attempts, o, order);
  }
}
