/** How rows may change over time: what a later state of the shop can and cannot say about an earlier row. */
module Evolution {
  import opened Basics
  import opened Statuses
  import opened EventKeys
  import opened Pricing
  import opened Tables
  import opened CartMerge
  import opened Orders
  import opened Payments
  import opened Refunds
  import opened Catalog
  import opened Recovery
  import opened Shop
  import opened PaymentInvariant
  import opened ShopInvariant

  // ----- reachability in the state machines

  predicate OrderReaches(from: OrderStatus, to: OrderStatus) {
    || to == from
    || from == Pending
    || (from == Processing && to in {Shipped, Delivered, Cancelled})
    || (from == Shipped && to == Delivered)
  }

  predicate RefundReaches(from: RefundStatus, to: RefundStatus) {
    || to == from
    || from == RefundPending
    || (from == RefundProcessing && to in {RefundSucceeded, RefundFailed, RefundManualReview})
    || (from == RefundManualReview && to in {RefundSucceeded, RefundFailed})
  }

  predicate ReturnReaches(from: ReturnStatus, to: ReturnStatus) {
    || to == from
    || from == ReturnRequested
    || (from == ReturnApproved && to in {ReturnReceived, ReturnRefundPending, ReturnRefunded, ReturnRefundFailed})
    || (from == ReturnReceived && to in {ReturnRefundPending, ReturnRefunded, ReturnRefundFailed})
    || (from == ReturnRefundPending && to in {ReturnRefunded, ReturnRefundFailed})
  }

  // ----- rows

  /** Everything agreed at checkout is fixed; payment and fulfilment only move forward and exclude cancellation. */
  predicate OrderEvolves(a: Order, b: Order) {
    && b == a.(status := b.status, payment := b.payment, payMethod := b.payMethod)
    && OrderReaches(a.status, b.status)
    && (a.payMethod == ZarinPal ==> b.payMethod == ZarinPal)
    && (a.status == Cancelled ==> b.payment == a.payment && b.payMethod == a.payMethod)
    && (Settled(a.payment) ==> Settled(b.payment) && (b.status == Cancelled ==> a.status == Cancelled))
    && (a.payment == Refunded ==> b.payment == Refunded)
    && (a.payment != b.payment ==> Settled(b.payment))
  }

  /** The two conditions of the attempt table's update trigger. */
  predicate TriggerAccepts(old_: Attempt, new_: Attempt) {
    && (new_.order, new_.amount, new_.currency, new_.provider, new_.environment, new_.account)
       == (old_.order, old_.amount, old_.currency, old_.provider, old_.environment, old_.account)
    && (old_.authority.Some? ==> new_.authority == old_.authority)
    && (Verified(old_.status) ==>
         (new_.status, new_.refId, new_.code) == (old_.status, old_.refId, old_.code))
  }

  predicate AttemptEvolves(a: Attempt, b: Attempt) {
    && TriggerAccepts(a, b)
    && b.createdAt == a.createdAt
    && (a.status == AttemptPending || b.status == a.status
        || (a.status == AttemptFailed && b.status == AttemptExpired)
        || (a.status == AttemptExpired && b.status == AttemptReconciliation))
    && (a.status != AttemptPending && a.authority.None? ==> b.authority.None?)
    && (a.status == AttemptFailed ==> b.authority.None?)
    && (b.authority.None? ==> !Verified(b.status))
  }

  predicate RefundEvolves(a: Refund, b: Refund) {
    b == a.(status := b.status) && RefundReaches(a.status, b.status)
  }

  predicate ReturnEvolves(a: Return, b: Return) {
    b == a.(status := b.status) && ReturnReaches(a.status, b.status)
  }

  // ----- tables

  predicate OrdersEvolve(a: seq<Order>, b: seq<Order>) {
    |a| <= |b| && forall o | 0 <= o < |a| :: OrderEvolves(a[o], b[o])
  }

  predicate AttemptsEvolve(a: seq<Attempt>, b: seq<Attempt>) {
    |a| <= |b| && forall i | 0 <= i < |a| :: AttemptEvolves(a[i], b[i])
  }

  predicate RefundsEvolve(a: seq<Refund>, b: seq<Refund>) {
    |a| <= |b| && forall r | 0 <= r < |a| :: RefundEvolves(a[r], b[r])
  }

  predicate ReturnsEvolve(a: seq<Return>, b: seq<Return>) {
    |a| <= |b| && forall q | 0 <= q < |a| :: ReturnEvolves(a[q], b[q])
  }

  predicate ProductsEvolve(a: seq<Product>, b: seq<Product>) {
    |a| <= |b| && forall p | 0 <= p < |a| :: b[p].initialStock == a[p].initialStock
  }

  /** Logs, merge results and outbox rows are only ever added. */
  predicate LogsEvolve(a: Db, b: Db) {
    && a.adjustments <= b.adjustments
    && (forall k | k in a.merges :: k in b.merges && b.merges[k] == a.merges[k])
    && (forall k | k in a.outbox :: k in b.outbox && b.outbox[k] == a.outbox[k])
    && b.notify == a.notify
    && |a.coupons| <= |b.coupons|
  }

  predicate Evolves(a: Db, b: Db) {
    && OrdersEvolve(a.orders, b.orders)
    && AttemptsEvolve(a.attempts, b.attempts)
    && RefundsEvolve(a.refunds, b.refunds)
    && ReturnsEvolve(a.returnRequests, b.returnRequests)
    && ProductsEvolve(a.products, b.products)
    && LogsEvolve(a, b)
  }

  lemma AttemptsEvolveReflexive(orders: seq<Order>, attempts: seq<Attempt>)
    requires PaymentInv(orders, attempts)
    ensures AttemptsEvolve(attempts, attempts)
  {
    forall i | 0 <= i < |attempts| ensures AttemptEvolves(attempts[i], attempts[i]) {
      assert AttemptInv(orders, attempts[i]);
    }
  }

  lemma EvolvesReflexive(db: Db)
    requires PaymentInv(db.orders, db.attempts)
    ensures Evolves(db, db)
  {
    AttemptsEvolveReflexive(db.orders, db.attempts);
  }

  lemma EvolvesTransitive(a: Db, b: Db, c: Db)
    requires Evolves(a, b) && Evolves(b, c)
    ensures Evolves(a, c)
  {
    forall o | 0 <= o < |a.orders| ensures OrderEvolves(a.orders[o], c.orders[o]) {
      assert OrderEvolves(a.orders[o], b.orders[o]) && OrderEvolves(b.orders[o], c.orders[o]);
    }
    forall i | 0 <= i < |a.attempts| ensures AttemptEvolves(a.attempts[i], c.attempts[i]) {
      assert AttemptEvolves(a.attempts[i], b.attempts[i]) && AttemptEvolves(b.attempts[i], c.attempts[i]);
    }
    forall r | 0 <= r < |a.refunds| ensures RefundEvolves(a.refunds[r], c.refunds[r]) {
      assert RefundEvolves(a.refunds[r], b.refunds[r]) && RefundEvolves(b.refunds[r], c.refunds[r]);
    }
    forall q | 0 <= q < |a.returnRequests| ensures ReturnEvolves(a.returnRequests[q], c.returnRequests[q]) {
      assert ReturnEvolves(a.returnRequests[q], b.returnRequests[q]);
      assert ReturnEvolves(b.returnRequests[q], c.returnRequests[q]);
    }
  }

  // ----- orders

  /** One order changes, with its stock, cart, redemption and outbox row. */
  lemma OneOrderEvolves(a: Db, b: Db, o: nat)
    requires PaymentInv(a.orders, a.attempts) && OnlyOrdersDiffer(a, b)
    requires o < |a.orders| && |b.orders| == |a.orders|
    requires b.orders == a.orders[o := b.orders[o]] && OrderEvolves(a.orders[o], b.orders[o])
    requires ProductsEvolve(a.products, b.products)
    requires forall k | k in a.outbox :: k in b.outbox && b.outbox[k] == a.outbox[k]
    ensures Evolves(a, b)
  {
    EvolvesReflexive(a);
  }

  lemma CancelOrderEvolves(db: Db, o: nat)
    requires Inv(db) && o < |db.orders|
    requires CanTransition(db.orders[o].status, Cancelled) && !Settled(db.orders[o].payment)
    ensures Evolves(db, CancelOrder(db, o))
  {
    OneOrderEvolves(db, CancelOrder(db, o), o);
  }

  lemma AdvanceEvolves(db: Db, o: nat, s: OrderStatus)
    requires Inv(db) && o < |db.orders|
    requires s != Cancelled && CanTransition(db.orders[o].status, s)
    ensures Evolves(db, Enqueue(db.(orders := SetStatus(db.orders, o, s)), OrderStatusEvent(o, s)))
  {
    OneOrderEvolves(db, Enqueue(db.(orders := SetStatus(db.orders, o, s)), OrderStatusEvent(o, s)), o);
  }

  lemma UpdateStatusEvolves(db: Db, o: nat, newStatus: OrderStatus)
    requires Inv(db)
    ensures Evolves(db, UpdateStatus(db, o, newStatus).0)
  {
    if UpdateStatus(db, o, newStatus).1.Done? {
      if newStatus == Cancelled {
        CancelOrderEvolves(db, o);
      } else {
        AdvanceEvolves(db, o, newStatus);
      }
    } else {
      EvolvesReflexive(db);
    }
  }

  lemma CancelOwnEvolves(db: Db, user: nat, o: nat)
    requires Inv(db)
    ensures Evolves(db, CancelOwnOrder(db, user, o).0)
  {
    if CancelOwnOrder(db, user, o).1.Done? {
      CancelOrderEvolves(db, o);
    } else {
      EvolvesReflexive(db);
    }
  }

  /** The orders an expiry run picks can all be cancelled. */
  ghost predicate Picked(orders: seq<Order>, picks: seq<nat>) {
    && (forall i | 0 <= i < |picks| ::
          picks[i] < |orders| && orders[picks[i]].status == Pending && !Settled(orders[picks[i]].payment))
    && (forall i, j | 0 <= i < j < |picks| :: picks[i] < picks[j])
  }

  lemma PickedRest(orders: seq<Order>, picks: seq<nat>)
    requires Picked(orders, picks) && picks != []
    ensures Picked(orders, picks[1..]) && Picked(SetStatus(orders, picks[0], Cancelled), picks[1..])
  {
  }

  lemma {:induction false} CancelEachEvolves(db: Db, picks: seq<nat>, count: nat)
    requires Inv(db) && Picked(db.orders, picks)
    ensures var r := CancelEach(db, picks, count);
            r.Some? ==> Evolves(db, r.value.0)
    decreases picks
  {
    if picks == [] {
      EvolvesReflexive(db);
    } else {
      var o := picks[0];
      PickedRest(db.orders, picks);
      if HasBlockingAttempt(db.attempts, o) {
        CancelEachEvolves(db, picks[1..], count);
      } else if Restorable(db.products, db.orders[o].lines) {
        var next := CancelOrder(db, o);
        CancelOrderKeepsInv(db, o);
        CancelOrderEvolves(db, o);
        CancelEachEvolves(next, picks[1..], count + 1);
        var r := CancelEach(next, picks[1..], count + 1);
        if r.Some? {
          EvolvesTransitive(db, next, r.value.0);
        }
      }
    }
  }

  lemma ExpireReservationsEvolves(db: Db, cutoff: int, locked: set<nat>, seen: seq<Attempt>)
    requires Inv(db)
    ensures Evolves(db, ExpireReservations(db, cutoff, locked, seen).0)
  {
    EvolvesReflexive(db);
    CancelEachEvolves(db, ExpiryPicks(db.orders, seen, cutoff, locked, 0, EXPIRY_BATCH), 0);
  }

  lemma CheckoutEvolves(db: Db, user: nat, input: CheckoutInput, ship: ShippingConfig, now: int, today: int)
    requires Inv(db)
    ensures Evolves(db, CreateFromCart(db, user, input, ship, now, today).0)
  {
    EvolvesReflexive(db);
    var (after, reply) := CreateFromCart(db, user, input, ship, now, today);
    if reply.NewRow? {
      PlaceOrderEvolves(db, after.orders[|db.orders|]);
    }
  }

  lemma PlaceOrderEvolves(db: Db, order: Order)
    requires Inv(db)
    ensures Evolves(db, PlaceOrder(db, order))
  {
    EvolvesReflexive(db);
    var after := PlaceOrder(db, order);
    assert forall o | 0 <= o < |db.orders| :: after.orders[o] == db.orders[o];
  }

  // ----- payments

  lemma AttemptColumnEvolves(db: Db, after: Db, i: nat)
    requires PaymentInv(db.orders, db.attempts) && OnlyPaymentsDiffer(db, after) && i < |db.attempts|
    requires |after.attempts| == |db.attempts|
    requires after.attempts == db.attempts[i := after.attempts[i]] && AttemptEvolves(db.attempts[i], after.attempts[i])
    requires OrdersEvolve(db.orders, after.orders)
    requires forall k | k in db.outbox :: k in after.outbox && after.outbox[k] == db.outbox[k]
    ensures Evolves(db, after)
  {
    EvolvesReflexive(db);
  }

  lemma CreateAttemptEvolves(db: Db, g: Gateway, user: nat, o: nat, now: int)
    requires PaymentInv(db.orders, db.attempts)
    ensures Evolves(db, CreateAttempt(db, g, user, o, now).0)
  {
    EvolvesReflexive(db);
    var (after, reply) := CreateAttempt(db, g, user, o, now);
    if reply.NewRow? {
      assert forall i | 0 <= i < |db.attempts| :: after.attempts[i] == db.attempts[i];
    }
  }

  lemma SetAuthorityEvolves(db: Db, g: Gateway, i: nat, authority: string)
    requires PaymentInv(db.orders, db.attempts)
    ensures Evolves(db, SetAuthority(db, g, i, authority).0)
  {
    EvolvesReflexive(db);
    var (after, reply) := SetAuthority(db, g, i, authority);
    if reply.Done? {
      AttemptColumnEvolves(db, after, i);
    }
  }

  lemma MarkFailedEvolves(db: Db, g: Gateway, i: nat, code: Option<int>)
    requires PaymentInv(db.orders, db.attempts)
    ensures Evolves(db, MarkAttemptFailed(db, g, i, code).0)
  {
    EvolvesReflexive(db);
    var (after, reply) := MarkAttemptFailed(db, g, i, code);
    if reply.Done? {
      AttemptColumnEvolves(db, after, i);
    }
  }

  lemma ExpireRejectedEvolves(db: Db, g: Gateway, i: nat, cutoff: int)
    requires PaymentInv(db.orders, db.attempts)
    ensures Evolves(db, ExpireRejected(db, g, i, cutoff).0)
  {
    EvolvesReflexive(db);
    var (after, reply) := ExpireRejected(db, g, i, cutoff);
    if reply.Done? {
      AttemptColumnEvolves(db, after, i);
    }
  }

  lemma VerdictEvolves(orders: seq<Order>, a: Attempt, status: AttemptStatus, refId: int, code: int)
    requires AttemptInv(orders, a) && !Verified(a.status) && a.authority.Some? && Verified(status)
    requires a.status == AttemptPending || status == AttemptReconciliation
    ensures AttemptEvolves(a, WithVerdict(a, status, refId, code))
  {
  }

  lemma SettlingEvolves(o: Order)
    requires !Settled(o.payment) && o.status != Cancelled
    ensures OrderEvolves(o, o.(payment := Paid, payMethod := ZarinPal))
  {
  }

  /** What a recorded success does to the attempt and to its order. */
  lemma RecordingEvolves(db: Db, i: nat, refId: int, code: int)
    requires PaymentInv(db.orders, db.attempts) && i < |db.attempts| && !Verified(db.attempts[i].status)
    requires db.attempts[i].order < |db.orders|
    requires RecordVerified(db, i, refId, code).1.Settlement?
    ensures var after := RecordVerified(db, i, refId, code).0;
            && |after.attempts| == |db.attempts|
            && after.attempts == db.attempts[i := after.attempts[i]]
            && AttemptEvolves(db.attempts[i], after.attempts[i])
            && OrdersEvolve(db.orders, after.orders)
  {
    var (after, reply) := RecordVerified(db, i, refId, code);
    var a := db.attempts[i];
    assert AttemptInv(db.orders, a);
    VerdictEvolves(db.orders, a, reply.finalStatus, refId, code);
    if reply.finalStatus == AttemptPaid {
      OneOrderSettles(db.orders, a.order);
    }
  }

  lemma OneOrderSettles(orders: seq<Order>, o: nat)
    requires o < |orders| && !Settled(orders[o].payment) && orders[o].status != Cancelled
    ensures OrdersEvolve(orders, orders[o := orders[o].(payment := Paid, payMethod := ZarinPal)])
  {
    SettlingEvolves(orders[o]);
  }

  lemma RecordVerifiedEvolves(db: Db, i: nat, refId: int, code: int)
    requires PaymentInv(db.orders, db.attempts) && i < |db.attempts| && !Verified(db.attempts[i].status)
    requires db.attempts[i].order < |db.orders|
    ensures Evolves(db, RecordVerified(db, i, refId, code).0)
  {
    var (after, reply) := RecordVerified(db, i, refId, code);
    if reply.Settlement? {
      RecordingEvolves(db, i, refId, code);
      AttemptColumnEvolves(db, after, i);
    } else {
      EvolvesReflexive(db);
    }
  }

  lemma FinalizeVerifiedEvolves(db: Db, g: Gateway, authority: string, refId: int, code: int)
    requires PaymentInv(db.orders, db.attempts)
    ensures Evolves(db, FinalizeVerified(db, g, authority, refId, code).0)
  {
    EvolvesReflexive(db);
    var i := FindAttempt(db.attempts, authority);
    if && refId > 0 && code in {CODE_SUCCESS, CODE_ALREADY_VERIFIED} && i.Some?
       && db.attempts[i.value].order < |db.orders| && !Verified(db.attempts[i.value].status) {
      RecordVerifiedEvolves(db, i.value, refId, code);
    }
  }

  lemma FinalizeFailedEvolves(db: Db, g: Gateway, authority: string, code: Option<int>)
    requires PaymentInv(db.orders, db.attempts)
    ensures Evolves(db, FinalizeFailed(db, g, authority, code).0)
  {
    EvolvesReflexive(db);
    FinalizeFailedIsSilent(db, g, authority, code);
    var (after, reply) := FinalizeFailed(db, g, authority, code);
    if reply.Settlement? && !reply.already {
      AttemptColumnEvolves(db, after, FindAttempt(db.attempts, authority).value);
    }
  }

  // ----- refunds and returns

  /** Refunds and returns change, and with them at most the payment status of one settled order. */
  lemma RefundTablesEvolve(a: Db, b: Db)
    requires PaymentInv(a.orders, a.attempts) && OnlyRefundsDiffer(a, b)
    requires OrdersEvolve(a.orders, b.orders)
    requires RefundsEvolve(a.refunds, b.refunds)
    requires ReturnsEvolve(a.returnRequests, b.returnRequests)
    requires forall k | k in a.outbox :: k in b.outbox && b.outbox[k] == a.outbox[k]
    ensures Evolves(a, b)
  {
    EvolvesReflexive(a);
  }

  lemma CoupledEvolves(orders: seq<Order>, attempts: seq<Attempt>, o: nat, newStatus: RefundStatus)
    requires PaymentInv(orders, attempts)
    ensures OrdersEvolve(orders, Coupled(orders, o, newStatus))
  {
    if o < |orders| && orders[o].status == Cancelled {
      CancelledOrderIsClosed(orders, attempts, o);
    }
  }

  lemma UpdateRefundEvolves(db: Db, r: nat, newStatus: RefundStatus)
    requires PaymentInv(db.orders, db.attempts)
    ensures Evolves(db, UpdateRefundStatus(db, r, newStatus).0)
  {
    var (after, reply) := UpdateRefundStatus(db, r, newStatus);
    if reply.Done? {
      CoupledEvolves(db.orders, db.attempts, db.refunds[r].order, newStatus);
    }
    RefundTablesEvolve(db, after);
  }

  lemma RefundRowsGrow(db: Db, o: nat, returnRequest: Option<nat>, amount: int, payMethod: PaymentMethod)
    ensures var after := CreateRefund(db, o, returnRequest, amount, payMethod).0;
            && RefundsEvolve(db.refunds, after.refunds) && ReturnsEvolve(db.returnRequests, after.returnRequests)
            && after.orders == db.orders && after.outbox == db.outbox
  {
  }

  lemma CreateRefundEvolves(db: Db, o: nat, returnRequest: Option<nat>, amount: int, payMethod: PaymentMethod)
    requires PaymentInv(db.orders, db.attempts)
    ensures Evolves(db, CreateRefund(db, o, returnRequest, amount, payMethod).0)
  {
    RefundRowsGrow(db, o, returnRequest, amount, payMethod);
    OrdersEvolveReflexive(db);
    RefundTablesEvolve(db, CreateRefund(db, o, returnRequest, amount, payMethod).0);
  }

  lemma OrdersEvolveReflexive(db: Db)
    requires PaymentInv(db.orders, db.attempts)
    ensures OrdersEvolve(db.orders, db.orders)
  {
    EvolvesReflexive(db);
  }

  lemma ReturnRowsGrow(db: Db, o: nat, user: nat)
    ensures var after := CreateReturn(db, o, user).0;
            && RefundsEvolve(db.refunds, after.refunds) && ReturnsEvolve(db.returnRequests, after.returnRequests)
            && after.orders == db.orders
            && (forall k | k in db.outbox :: k in after.outbox && after.outbox[k] == db.outbox[k])
  {
  }

  lemma CreateReturnEvolves(db: Db, o: nat, user: nat)
    requires PaymentInv(db.orders, db.attempts)
    ensures Evolves(db, CreateReturn(db, o, user).0)
  {
    ReturnRowsGrow(db, o, user);
    OrdersEvolveReflexive(db);
    RefundTablesEvolve(db, CreateReturn(db, o, user).0);
  }

  lemma ReturnRowMoves(db: Db, r: nat, newStatus: ReturnStatus)
    ensures var after := UpdateReturnStatus(db, r, newStatus).0;
            && RefundsEvolve(db.refunds, after.refunds) && ReturnsEvolve(db.returnRequests, after.returnRequests)
            && after.orders == db.orders
            && (forall k | k in db.outbox :: k in after.outbox && after.outbox[k] == db.outbox[k])
  {
  }

  lemma UpdateReturnEvolves(db: Db, r: nat, newStatus: ReturnStatus)
    requires PaymentInv(db.orders, db.attempts)
    ensures Evolves(db, UpdateReturnStatus(db, r, newStatus).0)
  {
    ReturnRowMoves(db, r, newStatus);
    OrdersEvolveReflexive(db);
    RefundTablesEvolve(db, UpdateReturnStatus(db, r, newStatus).0);
  }

  lemma RefundStepEvolves(db: Db, s: Step)
    requires PaymentInv(db.orders, db.attempts) && IsRefundStep(s)
    ensures Evolves(db, Next(db, s))
  {
    if s.DoCreateRefund? {
      CreateRefundEvolves(db, s.order, s.returnRequest, s.amount, s.payMethod);
      assert Next(db, s) == CreateRefund(db, s.order, s.returnRequest, s.amount, s.payMethod).0;
    } else if s.DoUpdateRefund? {
      UpdateRefundEvolves(db, s.refund, s.refundStatus);
      assert Next(db, s) == UpdateRefundStatus(db, s.refund, s.refundStatus).0;
    } else if s.DoCreateReturn? {
      CreateReturnEvolves(db, s.order, s.user);
      assert Next(db, s) == CreateReturn(db, s.order, s.user).0;
    } else {
      UpdateReturnEvolves(db, s.returnId, s.returnStatus);
      assert Next(db, s) == UpdateReturnStatus(db, s.returnId, s.returnStatus).0;
    }
  }

  lemma CancelledIsNotSettled(db: Db, o: nat)
    requires PaymentInv(db.orders, db.attempts) && o < |db.orders|
    ensures db.orders[o].status == Cancelled ==> !Settled(db.orders[o].payment)
  {
    if db.orders[o].status == Cancelled {
      CancelledOrderIsClosed(db.orders, db.attempts, o);
    }
  }

  // ----- all steps, all runs

  /** Products and the adjustment log only grow, and nothing else a catalogue step could touch changes. */
  predicate StockGrows(a: Db, b: Db) {
    && ProductsEvolve(a.products, b.products) && a.adjustments <= b.adjustments
    && b.merges == a.merges && b.coupons == a.coupons
  }

  lemma CreateProductGrows(db: Db, name: string, price: int, stock: int, education: bool, expiry: Option<int>)
    ensures StockGrows(db, CreateProduct(db, name, price, stock, education, expiry).0)
  {
  }

  lemma AdjustStockGrows(db: Db, p: nat, delta: int)
    ensures StockGrows(db, AdjustStock(db, p, delta).0)
  {
  }

  lemma UpdateProductGrows(db: Db, p: nat, name: string, price: int, stock: int, education: bool, expiry: Option<int>)
    ensures StockGrows(db, UpdateProduct(db, p, name, price, stock, education, expiry).0)
  {
  }

  lemma StockStepGrows(db: Db, s: Step)
    requires s.DoCreateProduct? || s.DoAdjustStock? || s.DoUpdateProduct?
    ensures StockGrows(db, Next(db, s))
  {
    if s.DoCreateProduct? {
      CreateProductGrows(db, s.name, s.price, s.stock, s.education, s.expiry);
      assert Next(db, s) == CreateProduct(db, s.name, s.price, s.stock, s.education, s.expiry).0;
    } else if s.DoAdjustStock? {
      AdjustStockGrows(db, s.product, s.delta);
      assert Next(db, s) == AdjustStock(db, s.product, s.delta).0;
    } else {
      UpdateProductGrows(db, s.product, s.name, s.price, s.stock, s.education, s.expiry);
      assert Next(db, s) == UpdateProduct(db, s.product, s.name, s.price, s.stock, s.education, s.expiry).0;
    }
  }

  /** Merge results and coupons only grow, and stock stays. */
  predicate CartGrows(a: Db, b: Db) {
    && b.products == a.products && b.adjustments == a.adjustments
    && (forall k | k in a.merges :: k in b.merges && b.merges[k] == a.merges[k])
    && |a.coupons| <= |b.coupons|
  }

  lemma CartRowGrows(db: Db, s: Step)
    requires s.DoAddItem? || s.DoUpdateItem? || s.DoDeleteItem?
    ensures CartGrows(db, Next(db, s))
  {
  }

  lemma MergeGrows(db: Db, user: nat, key: string, items: seq<MergeItem>)
    ensures CartGrows(db, MergeGuestCart(db, user, key, items).0)
  {
  }

  lemma CartStepGrows(db: Db, s: Step)
    requires s.DoAddItem? || s.DoUpdateItem? || s.DoDeleteItem? || s.DoMerge? || s.DoCreateCoupon? || s.DoUpdateCoupon?
    ensures CartGrows(db, Next(db, s))
  {
    if s.DoMerge? {
      MergeGrows(db, s.user, s.key, s.items);
      assert Next(db, s) == MergeGuestCart(db, s.user, s.key, s.items).0;
    } else if s.DoCreateCoupon? {
      assert Next(db, s) == CreateCoupon(db, s.coupon).0;
    } else if s.DoUpdateCoupon? {
      assert Next(db, s) == UpdateCoupon(db, s.id, s.coupon).0;
    } else {
      CartRowGrows(db, s);
    }
  }

  lemma CatalogTablesEvolve(a: Db, b: Db)
    requires PaymentInv(a.orders, a.attempts) && OnlyCatalogDiffers(a, b)
    requires ProductsEvolve(a.products, b.products) && a.adjustments <= b.adjustments
    requires forall k | k in a.merges :: k in b.merges && b.merges[k] == a.merges[k]
    requires |a.coupons| <= |b.coupons|
    ensures Evolves(a, b)
  {
    EvolvesReflexive(a);
  }

  lemma CatalogStepEvolves(db: Db, s: Step)
    requires PaymentInv(db.orders, db.attempts) && IsCatalogStep(s)
    ensures Evolves(db, Next(db, s))
  {
    CatalogStepLeavesOrders(db, s);
    if s.DoCreateProduct? || s.DoAdjustStock? || s.DoUpdateProduct? {
      StockStepGrows(db, s);
    } else {
      CartStepGrows(db, s);
    }
    CatalogTablesEvolve(db, Next(db, s));
  }

  lemma RecoveryStepEvolves(db: Db, s: Step)
    requires PaymentInv(db.orders, db.attempts) && IsRecoveryStep(s)
    ensures Evolves(db, Next(db, s))
  {
    EvolvesReflexive(db);
    if s.DoQueuePasswordReset? {
      assert Next(db, s) == QueuePasswordReset(db, s.user, s.tokenHash).0;
    } else {
      assert Next(db, s) == PurgeResetTokens(db, s.gone).0;
    }
  }

  lemma OpeningStepEvolves(db: Db, s: Step)
    requires PaymentInv(db.orders, db.attempts) && (s.DoCreateAttempt? || s.DoSetAuthority? || s.DoMarkFailed?)
    ensures Evolves(db, Next(db, s))
  {
    if s.DoCreateAttempt? {
      CreateAttemptEvolves(db, s.gateway, s.user, s.order, s.now);
      assert Next(db, s) == CreateAttempt(db, s.gateway, s.user, s.order, s.now).0;
    } else if s.DoSetAuthority? {
      SetAuthorityEvolves(db, s.gateway, s.attempt, s.authority);
      assert Next(db, s) == SetAuthority(db, s.gateway, s.attempt, s.authority).0;
    } else {
      MarkFailedEvolves(db, s.gateway, s.attempt, s.code);
      assert Next(db, s) == MarkAttemptFailed(db, s.gateway, s.attempt, s.code).0;
    }
  }

  lemma ClosingStepEvolves(db: Db, s: Step)
    requires PaymentInv(db.orders, db.attempts)
    requires s.DoFinalizeVerified? || s.DoFinalizeFailed? || s.DoExpireRejected?
    ensures Evolves(db, Next(db, s))
  {
    if s.DoFinalizeVerified? {
      FinalizeVerifiedEvolves(db, s.gateway, s.authority, s.refId, s.verifiedCode);
      assert Next(db, s) == FinalizeVerified(db, s.gateway, s.authority, s.refId, s.verifiedCode).0;
    } else if s.DoFinalizeFailed? {
      FinalizeFailedEvolves(db, s.gateway, s.authority, s.code);
      assert Next(db, s) == FinalizeFailed(db, s.gateway, s.authority, s.code).0;
    } else {
      ExpireRejectedEvolves(db, s.gateway, s.attempt, s.cutoff);
      assert Next(db, s) == ExpireRejected(db, s.gateway, s.attempt, s.cutoff).0;
    }
  }

  lemma AttemptStepEvolves(db: Db, s: Step)
    requires PaymentInv(db.orders, db.attempts) && IsAttemptStep(s)
    ensures Evolves(db, Next(db, s))
  {
    if s.DoCreateAttempt? || s.DoSetAuthority? || s.DoMarkFailed? {
      OpeningStepEvolves(db, s);
    } else {
      ClosingStepEvolves(db, s);
    }
  }

  lemma OrderStepEvolves(db: Db, s: Step)
    requires Inv(db) && IsOrderStep(s)
    ensures Evolves(db, Next(db, s))
  {
    if s.DoCheckout? {
      CheckoutEvolves(db, s.user, s.input, s.ship, s.now, s.today);
      assert Next(db, s) == CreateFromCart(db, s.user, s.input, s.ship, s.now, s.today).0;
    } else if s.DoUpdateStatus? {
      UpdateStatusEvolves(db, s.order, s.newStatus);
      assert Next(db, s) == UpdateStatus(db, s.order, s.newStatus).0;
    } else if s.DoCancelOwn? {
      CancelOwnEvolves(db, s.user, s.order);
      assert Next(db, s) == CancelOwnOrder(db, s.user, s.order).0;
    } else {
      ExpireReservationsEvolves(db, s.cutoff, s.locked, s.seen);
      assert Next(db, s) == ExpireReservations(db, s.cutoff, s.locked, s.seen).0;
    }
  }

  /** Every transaction respects the row histories above; in particular the update trigger never fires. */
  lemma StepEvolves(db: Db, s: Step)
    requires Inv(db)
    ensures Evolves(db, Next(db, s))
  {
    StepKinds(s);
    if IsCatalogStep(s) {
      CatalogStepEvolves(db, s);
    } else if IsAttemptStep(s) {
      AttemptStepEvolves(db, s);
    } else if IsRefundStep(s) {
      RefundStepEvolves(db, s);
    } else if IsRecoveryStep(s) {
      RecoveryStepEvolves(db, s);
    } else {
      OrderStepEvolves(db, s);
    }
  }

  lemma {:induction false} RunEvolves(db: Db, steps: seq<Step>)
    requires Inv(db)
    ensures Evolves(db, Run(db, steps))
  {
    if steps == [] {
      EvolvesReflexive(db);
    } else {
      var init := steps[..|steps| - 1];
      RunEvolves(db, init);
      RunKeepsInv(db, init);
      StepEvolves(Run(db, init), steps[|steps| - 1]);
      EvolvesTransitive(db, Run(db, init), Run(db, steps));
    }
  }
}
