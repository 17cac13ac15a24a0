/** Checkout, status changes, cancellation and reservation expiry as they run on the tables. */
module OrderRepository {
  import opened Basics
  import opened Statuses
  import opened EventKeys
  import opened Pricing
  import opened Tables
  import opened Orders
  import opened Shop
  import opened StockInvariant
  import opened ShopInvariant
  import opened Database

  class OrderRepository {
    const db: Database
    const shipping: ShippingConfig

    constructor (db: Database, shipping: ShippingConfig)
      ensures this.db == db && this.shipping == shipping
    {
      this.db, this.shipping := db, shipping;
    }

    // ----- stock

    /** Puts an order's quantities back, line by line; false when an INTEGER overflows. */
    method RestoreOrderStock(o: nat) returns (ok: bool)
      requires o < |db.orders| && LinesInv(db.orders[o].lines, |db.products|)
      requires forall p | 0 <= p < |db.products| :: db.products[p].stock <= MAX_INT32
      modifies db`products
      ensures ok == Restorable(old(db.products), db.orders[o].lines)
      ensures ok ==> db.products == Restored(old(db.products), db.orders[o].lines)
    {
      var toRestore := db.orders[o].lines;
      ghost var before := db.products;
      var i := 0;
      assert toRestore[..|toRestore|] == toRestore;
      while i < |toRestore|
        invariant 0 <= i <= |toRestore|
        invariant db.products == Restored(before, toRestore[..i])
        invariant Restorable(before, toRestore[..i])
      {
        var l := toRestore[i];
        QuantityStep(toRestore, i);
        assert LinesInv(toRestore, |before|);
        var stock := db.products[l.product].stock + l.quantity;
        if stock > MAX_INT32 {
          QuantityGrows(toRestore, i + 1, l.product);
          assert !Restorable(before, toRestore);
          return false;
        }
        db.products := db.products[l.product := db.products[l.product].(stock := stock)];
        i := i + 1;
      }
      ok := true;
    }

    lemma QuantityStep(lines: seq<Line>, i: nat)
      requires i < |lines|
      ensures forall p: nat ::
                Quantity(lines[..i + 1], p)
                == Quantity(lines[..i], p) + (if lines[i].product == p then lines[i].quantity else 0)
    {
      assert lines[..i + 1][..i] == lines[..i];
    }

    lemma {:induction false} QuantityGrows(lines: seq<Line>, n: nat, p: nat)
      requires n <= |lines| && forall i | 0 <= i < |lines| :: 0 < lines[i].quantity
      ensures Quantity(lines[..n], p) <= Quantity(lines, p)
      decreases |lines| - n
    {
      if n < |lines| {
        QuantityStep(lines, n);
        QuantityGrows(lines, n + 1, p);
      } else {
        assert lines[..n] == lines;
      }
    }

    // ----- status changes and cancellation

    /** What the three cancellation paths do once they have found nothing in the way. */
    method Cancel(o: nat) returns (ok: bool)
      requires o < |db.orders| && LinesInv(db.orders[o].lines, |db.products|)
      requires forall p | 0 <= p < |db.products| :: db.products[p].stock <= MAX_INT32
      modifies db
      ensures ok == Restorable(old(db.products), old(db.orders[o].lines))
      ensures ok ==> db.Snapshot() == CancelOrder(old(db.Snapshot()), o)
    {
      ok := RestoreOrderStock(o);
      if ok {
        var _ := db.ReleaseRedemptionForOrder(o);
        db.orders := db.orders[o := db.orders[o].(status := Cancelled)];
        db.EnqueueTx(OrderEvent(o, OrderCancelled));
      }
    }

    method UpdateStatus(o: nat, newStatus: OrderStatus) returns (reply: Reply)
      requires db.Valid()
      modifies db
      ensures db.Valid()
      ensures (db.Snapshot(), reply) == Orders.UpdateStatus(old(db.Snapshot()), o, newStatus)
    {
      var saved := db.Snapshot();
      UpdateStatusKeepsInv(saved, o, newStatus);
      if o >= |db.orders| {
        return Rejected(OrderNotFound);
      }
      var order := db.orders[o];
      if !CanTransition(order.status, newStatus) {
        return Rejected(InvalidTransition);
      }
      if RequiresPaidPayment(order.payMethod, newStatus) && order.payment != Paid {
        return Rejected(PaymentRequired);
      }
      if newStatus == Cancelled {
        if PaymentBlocksCancellation(db.attempts, o, order.payment) {
          return Rejected(if order.payment == Paid then RefundRequired else InvalidTransition);
        }
        var ok := Cancel(o);
        if !ok {
          db.Rollback(saved);
          return Rejected(DatabaseError);
        }
      } else {
        db.orders := db.orders[o := order.(status := newStatus)];
        db.EnqueueTx(OrderStatusEvent(o, newStatus));
      }
      reply := Done;
    }

    method CancelOwnOrder(user: nat, o: nat) returns (reply: Reply)
      requires db.Valid()
      modifies db
      ensures db.Valid()
      ensures (db.Snapshot(), reply) == Orders.CancelOwnOrder(old(db.Snapshot()), user, o)
    {
      var saved := db.Snapshot();
      CancelOwnKeepsInv(saved, user, o);
      if o >= |db.orders| || db.orders[o].user != user {
        return Rejected(OrderNotFound);
      }
      var order := db.orders[o];
      if PaymentBlocksCancellation(db.attempts, o, order.payment) {
        return Rejected(NotEligibleForCancel);
      }
      if !CanTransition(order.status, Cancelled) {
        return Rejected(InvalidTransition);
      }
      var ok := Cancel(o);
      if !ok {
        db.Rollback(saved);
        return Rejected(DatabaseError);
      }
      reply := Done;
    }

    /** What the expiry loop still has to do is what the specification does from here on. */
    ghost predicate Remaining(saved: Db, current: Db, items: seq<nat>, i: nat, count: nat)
      requires i <= |items| && forall j | 0 <= j < |items| :: items[j] < |saved.orders|
    {
      && Inv(current)
      && (forall j | i <= j < |items| ::
            items[j] < |current.orders| && current.orders[items[j]].status == Pending
            && !Settled(current.orders[items[j]].payment))
      && CancelEach(saved, items, 0) == CancelEach(current, items[i..], count)
    }

    lemma RoundAdvances(saved: Db, current: Db, items: seq<nat>, i: nat, count: nat)
      requires forall j | 0 <= j < |items| :: items[j] < |saved.orders|
      requires forall j, k | 0 <= j < k < |items| :: items[j] < items[k]
      requires i < |items| && Remaining(saved, current, items, i, count)
      ensures var o := items[i];
              if PaymentBlocksCancellation(current.attempts, o, current.orders[o].payment) then
                Remaining(saved, current, items, i + 1, count)
              else if Restorable(current.products, current.orders[o].lines) then
                Remaining(saved, CancelOrder(current, o), items, i + 1, count + 1)
              else CancelEach(saved, items, 0).None?
    {
      var o := items[i];
      assert items[i..][0] == o && items[i..][1..] == items[i + 1..];
      if !PaymentBlocksCancellation(current.attempts, o, current.orders[o].payment)
         && Restorable(current.products, current.orders[o].lines) {
        CancelOrderKeepsInv(current, o);
      }
    }

    /** The database refuses the round: nothing is left of the run. */
    lemma RoundFails(saved: Db, items: seq<nat>, cutoff: int, locked: set<nat>, seen: seq<Attempt>)
      requires items == ExpiryPicks(saved.orders, seen, cutoff, locked, 0, EXPIRY_BATCH)
      requires CancelEach(saved, items, 0).None?
      ensures Orders.ExpireReservations(saved, cutoff, locked, seen) == (saved, Rejected(DatabaseError))
    {
    }

    lemma RunEnds(saved: Db, current: Db, items: seq<nat>, count: nat, cutoff: int, locked: set<nat>, seen: seq<Attempt>)
      requires items == ExpiryPicks(saved.orders, seen, cutoff, locked, 0, EXPIRY_BATCH)
      requires Remaining(saved, current, items, |items|, count)
      ensures Orders.ExpireReservations(saved, cutoff, locked, seen) == (current, Cancellations(count))
    {
      assert items[|items|..] == [];
    }

    lemma RunStarts(saved: Db, items: seq<nat>, cutoff: int, locked: set<nat>, seen: seq<Attempt>)
      requires Inv(saved) && items == ExpiryPicks(saved.orders, seen, cutoff, locked, 0, EXPIRY_BATCH)
      ensures Remaining(saved, saved, items, 0, 0)
    {
      assert items[0..] == items;
    }

    /** One round: the order is left alone when an attempt blocks it after all, and cancelled otherwise. */
    method CancelNext(ghost saved: Db, items: seq<nat>, i: nat, count: nat) returns (ok: bool, tally: nat)
      requires forall j | 0 <= j < |items| :: items[j] < |saved.orders|
      requires forall j, k | 0 <= j < k < |items| :: items[j] < items[k]
      requires i < |items| && Remaining(saved, db.Snapshot(), items, i, count)
      modifies db
      ensures ok ==> Remaining(saved, db.Snapshot(), items, i + 1, tally)
      ensures !ok ==> CancelEach(saved, items, 0).None?
    {
      var o := items[i];
      RoundAdvances(saved, db.Snapshot(), items, i, count);
      if PaymentBlocksCancellation(db.attempts, o, db.orders[o].payment) {
        return true, count;
      }
      ok := Cancel(o);
      tally := count + 1;
    }

    /** Cancels the picked orders one after another; any failure undoes them all. */
    method ExpireReservations(cutoff: int, locked: set<nat>, seen: seq<Attempt>) returns (reply: Reply)
      requires db.Valid()
      modifies db
      ensures db.Valid()
      ensures (db.Snapshot(), reply) == Orders.ExpireReservations(old(db.Snapshot()), cutoff, locked, seen)
    {
      var saved := db.Snapshot();
      var items := ExpiryPicks(db.orders, seen, cutoff, locked, 0, EXPIRY_BATCH);
      var count := 0;
      var i := 0;
      RunStarts(saved, items, cutoff, locked, seen);
      while i < |items|
        invariant 0 <= i <= |items|
        invariant Remaining(saved, db.Snapshot(), items, i, count)
      {
        var ok;
        ok, count := CancelNext(saved, items, i, count);
        if !ok {
          RoundFails(saved, items, cutoff, locked, seen);
          db.Rollback(saved);
          return Rejected(DatabaseError);
        }
        i := i + 1;
      }
      RunEnds(saved, db.Snapshot(), items, count, cutoff, locked, seen);
      reply := Cancellations(count);
    }

    // ----- checkout

    method CheckAvailability(lines: seq<Line>, today: int) returns (ok: bool)
      requires forall i | 0 <= i < |lines| :: lines[i].product < |db.products|
      ensures ok == Purchasable(db.products, lines, today)
    {
      for i := 0 to |lines|
        invariant Purchasable(db.products, lines[..i], today)
      {
        var p := db.products[lines[i].product];
        if lines[i].quantity > p.stock || IsExpired(p, today) {
          return false;
        }
      }
      assert lines[..|lines|] == lines;
      ok := true;
    }

    method CheckAllDigital(lines: seq<Line>) returns (allDigital: bool)
      requires forall i | 0 <= i < |lines| :: lines[i].product < |db.products|
      ensures allDigital == AllDigital(db.products, lines)
    {
      allDigital := true;
      for i := 0 to |lines|
        invariant allDigital == AllDigital(db.products, lines[..i])
      {
        if !db.products[lines[i].product].education {
          allDigital := false;
        }
      }
      assert lines[..|lines|] == lines;
    }

    /** Resolves a coupon code under the coupon's lock: the coupon, or the reason it may not be used. */
    method Eligible(code: string, user: nat, itemsSubtotal: int, now: int) returns (coupon: Option<nat>, reason: Option<CouponReason>)
      ensures coupon == FindCoupon(db.coupons, code)
      ensures reason == if coupon.None? then Some(UnknownCode)
                        else Ineligibility(db.Snapshot(), coupon.value, user, itemsSubtotal, now)
    {
      coupon := FindCoupon(db.coupons, code);
      if coupon.None? {
        return coupon, Some(UnknownCode);
      }
      var c := db.coupons[coupon.value];
      reason := CheckEligibility(c, itemsSubtotal, now);
      if reason.Some? {
        return;
      }
      if c.usageLimit.Some? {
        var count := CountActive(db.redemptions, coupon.value);
        if count >= c.usageLimit.value {
          return coupon, Some(UsageLimitReached);
        }
      }
      if c.perUserLimit.Some? {
        var count := CountActiveForUser(db.redemptions, coupon.value, user);
        if count >= c.perUserLimit.value {
          return coupon, Some(PerUserLimitReached);
        }
      }
    }

    lemma {:induction false} OtherProductsAreNotCounted(lines: seq<Line>, i: nat)
      requires i < |lines| && forall j, k | 0 <= j < k < |lines| :: lines[j].product < lines[k].product
      ensures Quantity(lines[..i], lines[i].product) == 0
    {
      QuantityOfUnknownProduct(lines[..i], lines[i].product);
    }

    lemma {:induction false} QuantityOfTheOnlyLine(lines: seq<Line>, i: nat)
      requires i < |lines| && forall j, k | 0 <= j < k < |lines| :: lines[j].product < lines[k].product
      ensures Quantity(lines, lines[i].product) == lines[i].quantity
      decreases |lines|
    {
      var init := lines[..|lines| - 1];
      if i == |lines| - 1 {
        OtherProductsAreNotCounted(lines, i);
      } else {
        QuantityOfTheOnlyLine(init, i);
        assert init[i] == lines[i];
      }
    }

    /** Taking line i as well; what it leaves of its product is what the whole order leaves. */
    lemma TakingOneMore(products: seq<Product>, lines: seq<Line>, i: nat)
      requires i < |lines| && lines[i].product < |products|
      requires forall j, k | 0 <= j < k < |lines| :: lines[j].product < lines[k].product
      ensures var (p, before) := (lines[i].product, Taken(products, lines[..i]));
              && Taken(products, lines[..i + 1])
                 == before[p := before[p].(stock := before[p].stock - lines[i].quantity)]
              && Taken(products, lines)[p].stock == before[p].stock - lines[i].quantity
    {
      QuantityStep(lines, i);
      QuantityOfTheOnlyLine(lines, i);
      OtherProductsAreNotCounted(lines, i);
    }

    /**
     * Writes the order's items one by one and takes each quantity out of stock; false as soon as a
     * CHECK constraint refuses a row.
     */
    method InsertItems(o: nat, lines: seq<Line>) returns (ok: bool)
      requires o < |db.orders| && db.orders[o].lines == []
      requires forall i | 0 <= i < |lines| :: lines[i].product < |db.products|
      requires forall i, j | 0 <= i < j < |lines| :: lines[i].product < lines[j].product
      requires StockNonNegative(db.products)
      modifies db`orders, db`products
      ensures ok <==> && (forall i | 0 <= i < |lines| :: ItemAccepted(lines[i]))
                      && StockNonNegative(Taken(old(db.products), lines))
      ensures ok ==> && db.products == Taken(old(db.products), lines)
                     && db.orders == old(db.orders)[o := old(db.orders[o]).(lines := lines)]
    {
      ghost var products, orders := db.products, db.orders;
      assert lines[..|lines|] == lines && lines[..0] == [];
      var i := 0;
      while i < |lines|
        invariant 0 <= i <= |lines|
        invariant forall j | 0 <= j < i :: ItemAccepted(lines[j])
        invariant db.products == Taken(products, lines[..i]) && StockNonNegative(db.products)
        invariant db.orders == orders[o := orders[o].(lines := lines[..i])]
      {
        var l := lines[i];
        if !ItemAccepted(l) {
          return false;
        }
        TakingOneMore(products, lines, i);
        db.orders := db.orders[o := db.orders[o].(lines := db.orders[o].lines + [l])];
        var stock := db.products[l.product].stock - l.quantity;
        if stock < 0 {
          return false;
        }
        db.products := db.products[l.product := db.products[l.product].(stock := stock)];
        assert lines[..i + 1] == lines[..i] + [l];
        i := i + 1;
      }
      ok := true;
    }

    /** The tables once the order row and its items are in: redemption, cart and notification follow. */
    method FinishOrder(o: nat)
      requires o + 1 == |db.orders|
      modifies db
      ensures db.Snapshot() ==
              Enqueue(old(db.Snapshot()).(
                        redemptions := old(db.redemptions)
                          + [if old(db.orders[o]).coupon.Some?
                             then Some(Redemption(old(db.orders[o]).coupon.value, old(db.orders[o]).user, false))
                             else None],
                        cart := WithoutUser(old(db.cart), old(db.orders[o]).user)),
                      OrderEvent(o, Created))
    {
      var order := db.orders[o];
      db.redemptions :=
        db.redemptions
        + [if order.coupon.Some? then Some(Redemption(order.coupon.value, order.user, false)) else None];
      db.cart := WithoutUser(db.cart, order.user);
      db.EnqueueTx(OrderEvent(o, Created));
    }

    method CreateFromCart(user: nat, input: CheckoutInput, now: int, today: int) returns (reply: Reply)
      requires db.Valid()
      modifies db
      ensures db.Valid()
      ensures (db.Snapshot(), reply) == Orders.CreateFromCart(old(db.Snapshot()), user, input, shipping, now, today)
    {
      var saved := db.Snapshot();
      CheckoutKeepsInv(saved, user, input, shipping, now, today);
      if Fee(shipping, input.shippingMethod, 0).None? {
        return Rejected(InvalidShipping);
      }
      var lines := CartLines(db.products, db.cart, user, |db.products|);
      CartLinesComeFromCart(db.products, db.cart, user, |db.products|);
      if |lines| == 0 {
        return Rejected(EmptyCart);
      }
      var available := CheckAvailability(lines, today);
      if !available {
        return Rejected(InsufficientStock);
      }
      var allDigital := CheckAllDigital(lines);
      if input.shippingMethod == "digital" && !allDigital {
        return Rejected(InvalidShipping);
      }
      var shippingMethod := if allDigital then "digital" else input.shippingMethod;
      var itemsSubtotal := ComputeSubtotal(lines);
      var coupon, reason: Option<CouponReason> := None, None;
      if input.couponCode != "" {
        coupon, reason := Eligible(input.couponCode, user, itemsSubtotal, now);
      }
      if reason.Some? {
        return Rejected(CouponRejected(reason.value));
      }
      reply := InsertOrder(saved, NewOrder(saved, user, shippingMethod, shipping, lines, coupon, now));
    }

    /** The writing half of checkout: all rows, or none. */
    method InsertOrder(saved: Db, order: Order) returns (reply: Reply)
      requires saved == db.Snapshot() && StockNonNegative(db.products)
      requires forall i | 0 <= i < |order.lines| :: order.lines[i].product < |db.products|
      requires forall i, j | 0 <= i < j < |order.lines| :: order.lines[i].product < order.lines[j].product
      modifies db
      ensures (db.Snapshot(), reply) == Orders.InsertOrder(saved, order)
    {
      if !HeaderAccepted(order) {
        return Rejected(DatabaseError);
      }
      var o := |db.orders|;
      db.orders := db.orders + [order.(lines := [])];
      var ok := InsertItems(o, order.lines);
      if !ok {
        db.Rollback(saved);
        return Rejected(DatabaseError);
      }
      assert db.orders == saved.orders + [order];
      FinishOrder(o);
      reply := NewRow(o);
    }
  }
}
