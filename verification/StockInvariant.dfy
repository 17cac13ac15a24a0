/** Conservation of stock: every unit is on the shelf, held by a live order, or accounted for by the log. */
module StockInvariant {
  import opened Basics
  import opened Statuses
  import opened Pricing
  import opened Tables
  import opened Orders
  import opened Catalog

  ghost predicate LinesInv(lines: seq<Line>, productCount: nat) {
    forall i | 0 <= i < |lines| :: lines[i].product < productCount && 0 < lines[i].quantity
  }

  ghost predicate Conserved(products: seq<Product>, orders: seq<Order>, adjustments: seq<Adjustment>, p: nat)
    requires p < |products|
  {
    products[p].stock + Held(orders, p) == products[p].initialStock + Adjusted(adjustments, p)
  }

  ghost predicate StockInv(products: seq<Product>, orders: seq<Order>, adjustments: seq<Adjustment>) {
    && (forall p | 0 <= p < |products| :: 0 <= products[p].stock <= MAX_INT32)
    && (forall p | 0 <= p < |products| :: Conserved(products, orders, adjustments, p))
    && (forall o | 0 <= o < |orders| :: LinesInv(orders[o].lines, |products|))
    && (forall k | 0 <= k < |adjustments| :: adjustments[k].product < |products|)
  }

  ghost predicate CartInv(cart: map<CartKey, int>, productCount: nat) {
    forall k | k in cart :: k.product < productCount && 0 < cart[k]
  }

  // ----- quantities

  lemma {:induction false} QuantityOfUnknownProduct(lines: seq<Line>, p: nat)
    requires forall i | 0 <= i < |lines| :: lines[i].product != p
    ensures Quantity(lines, p) == 0
  {
    if lines != [] {
      QuantityOfUnknownProduct(lines[..|lines| - 1], p);
    }
  }

  lemma {:induction false} QuantityIsNonNegative(lines: seq<Line>, p: nat)
    requires forall i | 0 <= i < |lines| :: 0 <= lines[i].quantity
    ensures 0 <= Quantity(lines, p)
  {
    if lines != [] {
      QuantityIsNonNegative(lines[..|lines| - 1], p);
    }
  }

  lemma NothingHeldOfUnknownProduct(orders: seq<Order>, p: nat)
    requires forall o | 0 <= o < |orders| :: LinesInv(orders[o].lines, p)
    ensures Held(orders, p) == 0
  {
    forall o | 0 <= o < |orders| ensures HeldBy(p)(orders[o]) == 0 {
      QuantityOfUnknownProduct(orders[o].lines, p);
    }
    SumZero(orders, HeldBy(p));
  }

  /** The checkout lines hold, per product, exactly what the cart holds. */
  lemma {:induction false} CartLinesMatchCart(products: seq<Product>, cart: map<CartKey, int>, user: nat, n: nat, p: nat)
    requires n <= |products|
    ensures Quantity(CartLines(products, cart, user, n), p) == if p < n then CartQuantity(cart, user, p) else 0
    ensures p < n && CartKey(user, p) in cart ==>
              Line(p, products[p].price, cart[CartKey(user, p)]) in CartLines(products, cart, user, n)
  {
    if n > 0 {
      CartLinesMatchCart(products, cart, user, n - 1, p);
      var init, lines := CartLines(products, cart, user, n - 1), CartLines(products, cart, user, n);
      if CartKey(user, n - 1) in cart {
        var last := Line(n - 1, products[n - 1].price, cart[CartKey(user, n - 1)]);
        assert lines == init + [last];
        assert lines[..|lines| - 1] == init;
      } else {
        assert lines == init;
      }
    }
  }

  /** Every line is a cart row of a product below n, and no product has two lines. */
  ghost predicate LinesFromCart(lines: seq<Line>, products: seq<Product>, cart: map<CartKey, int>, user: nat, n: nat)
    requires n <= |products|
  {
    && (forall i | 0 <= i < |lines| ::
         && lines[i].product < n && CartKey(user, lines[i].product) in cart
         && lines[i].quantity == cart[CartKey(user, lines[i].product)]
         && lines[i].price == products[lines[i].product].price)
    && (forall i, j | 0 <= i < j < |lines| :: lines[i].product < lines[j].product)
  }

  lemma {:induction false} CartLinesComeFromCart(products: seq<Product>, cart: map<CartKey, int>, user: nat, n: nat)
    requires n <= |products|
    ensures LinesFromCart(CartLines(products, cart, user, n), products, cart, user, n)
  {
    if n > 0 {
      CartLinesComeFromCart(products, cart, user, n - 1);
      assert CartKey(user, n - 1) !in cart
        ==> CartLines(products, cart, user, n) == CartLines(products, cart, user, n - 1);
    }
  }

  /**
   * Because a cart has one row per product, comparing each row with the stock is enough:
   * the CHECK on the stock column never refuses an accepted checkout.
   */
  lemma AcceptedCheckoutLeavesStockNonNegative(db: Db, user: nat, today: int)
    requires StockNonNegative(db.products)
    ensures var lines := CartLines(db.products, db.cart, user, |db.products|);
            Purchasable(db.products, lines, today) ==> StockNonNegative(Taken(db.products, lines))
  {
    var lines := CartLines(db.products, db.cart, user, |db.products|);
    if Purchasable(db.products, lines, today) {
      forall p | 0 <= p < |db.products| ensures 0 <= Taken(db.products, lines)[p].stock {
        CartLinesMatchCart(db.products, db.cart, user, |db.products|, p);
        if CartKey(user, p) in db.cart {
          var i :| 0 <= i < |lines| && lines[i] == Line(p, db.products[p].price, db.cart[CartKey(user, p)]);
        }
      }
    }
  }

  // ----- preservation

  /** Replacing an order without touching what it holds. */
  lemma SameHoldingKeeps(products: seq<Product>, orders: seq<Order>, adjustments: seq<Adjustment>, o: nat, order: Order)
    requires StockInv(products, orders, adjustments) && o < |orders|
    requires order.lines == orders[o].lines
    requires (order.status == Cancelled) == (orders[o].status == Cancelled)
    ensures StockInv(products, orders[o := order], adjustments)
  {
    var orders' := orders[o := order];
    forall p | 0 <= p < |products| ensures Conserved(products, orders', adjustments, p) {
      assert Conserved(products, orders, adjustments, p);
      SumUpdate(orders, o, order, HeldBy(p));
    }
  }

  lemma CancellingKeeps(products: seq<Product>, orders: seq<Order>, adjustments: seq<Adjustment>, o: nat)
    requires StockInv(products, orders, adjustments) && o < |orders|
    requires orders[o].status != Cancelled && Restorable(products, orders[o].lines)
    ensures StockInv(Restored(products, orders[o].lines), SetStatus(orders, o, Cancelled), adjustments)
  {
    var lines := orders[o].lines;
    var products', orders' := Restored(products, lines), SetStatus(orders, o, Cancelled);
    assert LinesInv(lines, |products|);
    forall p | 0 <= p < |products'|
      ensures 0 <= products'[p].stock <= MAX_INT32 && Conserved(products', orders', adjustments, p)
    {
      assert Conserved(products, orders, adjustments, p);
      QuantityIsNonNegative(lines, p);
      SumUpdate(orders, o, orders'[o], HeldBy(p));
    }
    forall k | 0 <= k < |orders'| ensures LinesInv(orders'[k].lines, |products'|) {
      assert LinesInv(orders[k].lines, |products|);
    }
  }

  lemma PlacingKeeps(products: seq<Product>, orders: seq<Order>, adjustments: seq<Adjustment>, order: Order)
    requires StockInv(products, orders, adjustments)
    requires order.status != Cancelled && LinesInv(order.lines, |products|)
    requires StockNonNegative(Taken(products, order.lines))
    ensures StockInv(Taken(products, order.lines), orders + [order], adjustments)
  {
    var products', orders' := Taken(products, order.lines), orders + [order];
    forall p | 0 <= p < |products'|
      ensures products'[p].stock <= MAX_INT32 && Conserved(products', orders', adjustments, p)
    {
      assert Conserved(products, orders, adjustments, p);
      QuantityIsNonNegative(order.lines, p);
      SumAppend(orders, order, HeldBy(p));
    }
    forall k | 0 <= k < |orders'| ensures LinesInv(orders'[k].lines, |products'|) {
      assert k < |orders| ==> LinesInv(orders[k].lines, |products|);
    }
  }

  lemma CreateProductKeeps(db: Db, name: string, price: int, stock: int, education: bool, expiry: Option<int>)
    requires StockInv(db.products, db.orders, db.adjustments) && CartInv(db.cart, |db.products|)
    ensures var after := CreateProduct(db, name, price, stock, education, expiry).0;
            StockInv(after.products, after.orders, after.adjustments) && CartInv(after.cart, |after.products|)
  {
    var (after, reply) := CreateProduct(db, name, price, stock, education, expiry);
    if reply.NewRow? {
      forall p | 0 <= p < |after.products| ensures Conserved(after.products, after.orders, after.adjustments, p) {
        if p < |db.products| {
          assert Conserved(db.products, db.orders, db.adjustments, p);
        } else {
          NothingHeldOfUnknownProduct(db.orders, p);
          SumZero(db.adjustments, DeltaFor(p));
        }
      }
      forall o | 0 <= o < |db.orders| ensures LinesInv(db.orders[o].lines, |after.products|) {
        assert LinesInv(db.orders[o].lines, |db.products|);
      }
    }
  }

  /** A stock change that is logged with its difference. */
  lemma LoggedChangeKeeps(products: seq<Product>, orders: seq<Order>, adjustments: seq<Adjustment>, q: nat,
                          updated: Product, entry: Adjustment)
    requires StockInv(products, orders, adjustments) && q < |products|
    requires updated.initialStock == products[q].initialStock && 0 <= updated.stock <= MAX_INT32
    requires entry.product == q && entry.delta == updated.stock - products[q].stock
    ensures StockInv(products[q := updated], orders, adjustments + [entry])
  {
    var products' := products[q := updated];
    forall p | 0 <= p < |products'| ensures Conserved(products', orders, adjustments + [entry], p) {
      assert Conserved(products, orders, adjustments, p);
      SumAppend(adjustments, entry, DeltaFor(p));
    }
    forall o | 0 <= o < |orders| ensures LinesInv(orders[o].lines, |products'|) {
      assert LinesInv(orders[o].lines, |products|);
    }
  }

  lemma AdjustStockKeeps(db: Db, p: nat, delta: int)
    requires StockInv(db.products, db.orders, db.adjustments)
    ensures var after := AdjustStock(db, p, delta).0;
            StockInv(after.products, after.orders, after.adjustments) && |after.products| == |db.products|
  {
    var (after, reply) := AdjustStock(db, p, delta);
    if reply.Done? {
      LoggedChangeKeeps(db.products, db.orders, db.adjustments, p, after.products[p],
                        after.adjustments[|db.adjustments|]);
    }
  }

  lemma UpdateProductKeeps(db: Db, p: nat, name: string, price: int, stock: int, education: bool, expiry: Option<int>)
    requires StockInv(db.products, db.orders, db.adjustments)
    ensures var after := UpdateProduct(db, p, name, price, stock, education, expiry).0;
            StockInv(after.products, after.orders, after.adjustments) && |after.products| == |db.products|
  {
    var (after, reply) := UpdateProduct(db, p, name, price, stock, education, expiry);
    if reply.Done? {
      var updated := after.products[p];
      if db.products[p].stock != stock {
        LoggedChangeKeeps(db.products, db.orders, db.adjustments, p, updated,
                          after.adjustments[|db.adjustments|]);
      } else {
        forall q | 0 <= q < |db.products| ensures Conserved(after.products, db.orders, db.adjustments, q) {
          assert Conserved(db.products, db.orders, db.adjustments, q);
        }
        forall o | 0 <= o < |db.orders| ensures LinesInv(db.orders[o].lines, |after.products|) {
          assert LinesInv(db.orders[o].lines, |db.products|);
        }
      }
    }
  }
}
