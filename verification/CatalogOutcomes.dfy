/** What the stock, cart and coupon transactions leave behind, and when they refuse. */
module CatalogOutcomes {
  import opened Basics
  import opened Pricing
  import opened Tables
  import opened CartMerge
  import opened Catalog

  // ----- stock

  /** A product is created exactly with a non-negative price and a stock that fits the column, and with that stock. */
  lemma CreateProductOutcome(db: Db, name: string, price: int, stock: int, education: bool, expiry: Option<int>)
    ensures var (after, reply) := CreateProduct(db, name, price, stock, education, expiry);
            if 0 <= price <= 0x7FFF_FFFF_FFFF_FFFF && 0 <= stock <= 0x7FFF_FFFF
            then reply == NewRow(|db.products|)
                 && after == db.(products := db.products + [Product(name, price, stock, education, expiry, stock)])
            else (after, reply) == (db, Rejected(DatabaseError))
  {
  }

  /**
   * An adjustment adds its delta to the stock and logs delta, old and new stock; it is refused for a delta of
   * zero, an unknown product, a stock that would become negative and one that would not fit the column.
   */
  lemma AdjustStockOutcome(db: Db, p: nat, delta: int)
    ensures var (after, reply) := AdjustStock(db, p, delta);
            && (reply == Rejected(InvalidInput) <==> delta == 0)
            && (reply == Rejected(ProductNotFound) <==> delta != 0 && p >= |db.products|)
            && (delta != 0 && p < |db.products| ==>
                 var stock := db.products[p].stock;
                 && (reply == Rejected(StockNegative) <==> stock < -delta)
                 && (reply == Rejected(DatabaseError) <==> 0x7FFF_FFFF - delta < stock && -delta <= stock)
                 && (reply == Done <==> -delta <= stock <= 0x7FFF_FFFF - delta)
                 && (reply == Done ==>
                      && |after.products| == |db.products| && after.products[p].stock - stock == delta
                      && after.products == db.products[p := db.products[p].(stock := after.products[p].stock)]
                      && after.adjustments == db.adjustments + [Adjustment(p, delta, stock, after.products[p].stock)]
                      && after == db.(products := after.products, adjustments := after.adjustments)))
            && (reply != Done ==> after == db)
  {
  }

  /** An edit writes all columns of the product, and logs the difference exactly when the stock changes. */
  lemma UpdateProductOutcome(db: Db, p: nat, name: string, price: int, stock: int, education: bool, expiry: Option<int>)
    ensures var (after, reply) := UpdateProduct(db, p, name, price, stock, education, expiry);
            if p < |db.products| && 0 <= price <= 0x7FFF_FFFF_FFFF_FFFF && 0 <= stock <= 0x7FFF_FFFF then
              var existing := db.products[p];
              && reply == Done
              && after == db.(
                   products := db.products[p := Product(name, price, stock, education, expiry, existing.initialStock)],
                   adjustments := after.adjustments)
              && (stock == existing.stock ==> after.adjustments == db.adjustments)
              && (stock != existing.stock ==>
                   after.adjustments == db.adjustments + [Adjustment(p, stock - existing.stock, existing.stock, stock)])
            else (after, reply) == (db, Rejected(if p < |db.products| then DatabaseError else ProductNotFound))
  {
  }

  // ----- carts

  /** Row k of the cart holds q and every other row is as before. */
  ghost predicate OnlyRow(before: map<CartKey, int>, after: map<CartKey, int>, k: CartKey, q: int) {
    && k in after && after[k] == q
    && forall other: CartKey | other != k ::
         (other in after <==> other in before) && (other in before ==> after[other] == before[other])
  }

  /** Adding puts the quantity on top of what the cart holds, as long as the sum is in stock. */
  lemma AddItemOutcome(db: Db, user: nat, p: nat, quantity: int)
    ensures var (after, reply) := AddItem(db, user, p, quantity);
            var held := if CartKey(user, p) in db.cart then db.cart[CartKey(user, p)] else 0;
            && (reply == Rejected(InvalidInput) <==> quantity < 1)
            && (reply == Rejected(ProductNotFound) <==> 1 <= quantity && p >= |db.products|)
            && (1 <= quantity && p < |db.products| ==>
                 && (reply == Rejected(InsufficientStock) <==> db.products[p].stock - held < quantity)
                 && (reply == Done <==> held + quantity <= db.products[p].stock))
            && (reply == Done ==> OnlyRow(db.cart, after.cart, CartKey(user, p), held + quantity)
                                  && after == db.(cart := after.cart))
            && (reply != Done ==> after == db)
  {
  }

  /** Setting a quantity replaces that of an existing row, as long as it is in stock. */
  lemma UpdateItemOutcome(db: Db, user: nat, p: nat, quantity: int)
    ensures var (after, reply) := UpdateItem(db, user, p, quantity);
            && (reply == Done <==>
                 1 <= quantity && CartKey(user, p) in db.cart && p < |db.products| && quantity <= db.products[p].stock)
            && (reply == Done ==> OnlyRow(db.cart, after.cart, CartKey(user, p), quantity) && after == db.(cart := after.cart))
            && (reply != Done ==> after == db && reply.Rejected?)
            && (1 <= quantity && CartKey(user, p) !in db.cart ==> reply == Rejected(ItemNotFound))
            && (1 <= quantity && CartKey(user, p) in db.cart && p < |db.products| && db.products[p].stock < quantity ==>
                 reply == Rejected(InsufficientStock))
  {
  }

  lemma DeleteItemOutcome(db: Db, user: nat, p: nat)
    ensures var (after, reply) := DeleteItem(db, user, p);
            && (reply == Done <==> CartKey(user, p) in db.cart)
            && (reply != Done ==> (after, reply) == (db, Rejected(ItemNotFound)))
            && after == db.(cart := after.cart)
            && forall k: CartKey :: (k in after.cart <==> k in db.cart && k != CartKey(user, p))
                                    && (k in after.cart ==> after.cart[k] == db.cart[k])
  {
  }

  // ----- guest carts

  /** A merge is refused for a quantity outside 1 to 1000, answered from the record when its key is known, and done else. */
  lemma MergeReplies(db: Db, user: nat, key: string, items: seq<MergeItem>)
    ensures var (after, reply) := MergeGuestCart(db, user, key, items);
            && (reply == Rejected(InvalidInput) <==> exists i :: 0 <= i < |items| && !(1 <= items[i].quantity <= 1000))
            && (reply.Rejected? ==> after == db && reply == Rejected(InvalidInput))
            && (reply.Merged? && MergeKey(user, key) in db.merges ==>
                 after == db && reply.warnings == db.merges[MergeKey(user, key)])
            && (reply.Merged? && MergeKey(user, key) !in db.merges ==>
                 after == db.(cart := after.cart, merges := db.merges[MergeKey(user, key) := reply.warnings]))
  {
  }

  /**
   * A first merge warns of each posted product once, in ascending order: that it is missing, or that cart and
   * posted quantity - at most 1000 - exceed its stock.
   */
  lemma {:induction false} MergeWarns(products: seq<Product>, cart: map<CartKey, int>, user: nat, items: seq<MergeItem>,
                                      ids: seq<nat>, w: Warning)
    ensures w in Warnings(products, cart, user, items, ids) <==>
              exists k :: 0 <= k < |ids| && Warns(products, cart, user, items, ids[k], w)
    ensures |Warnings(products, cart, user, items, ids)| <= |ids|
  {
    if ids != [] {
      var n := |ids| - 1;
      MergeWarns(products, cart, user, items, ids[..n], w);
      assert forall k | 0 <= k < n :: ids[..n][k] == ids[k];
      if w in WarningFor(products, cart, user, items, ids[n]) {
        assert Warns(products, cart, user, items, ids[n], w);
      }
      if Warns(products, cart, user, items, ids[n], w) {
        assert w in WarningFor(products, cart, user, items, ids[n]);
      }
    }
  }

  /** Product p deserves warning w. */
  ghost predicate Warns(products: seq<Product>, cart: map<CartKey, int>, user: nat, items: seq<MergeItem>, p: nat, w: Warning) {
    var posted := Sum(items, QuantityOf(p));
    var held := if CartKey(user, p) in cart then cart[CartKey(user, p)] else 0;
    if p >= |products| then w == ProductMissing
    else w == ClampedToStock(products[p].name)
         && products[p].stock < held + (if posted <= 1000 then posted else 1000)
  }

  ghost predicate IsPosted(items: seq<MergeItem>, p: nat) {
    exists i :: 0 <= i < |items| && items[i].product == p
  }

  /** What the guest cart adds to a product: everything posted for it, at most 1000. */
  function Posted(items: seq<MergeItem>, p: nat): int {
    var sum := Sum(items, QuantityOf(p));
    if sum <= 1000 then sum else 1000
  }

  /**
   * After a first merge the cart holds, of each posted product in stock, what it held and what was posted, at
   * most the stock; all other rows are as before. The reply warns of exactly the posted products that deserve it.
   */
  lemma MergeEffect(db: Db, user: nat, key: string, items: seq<MergeItem>, k: CartKey, w: Warning)
    requires forall i | 0 <= i < |items| :: 1 <= items[i].quantity <= 1000
    requires MergeKey(user, key) !in db.merges && forall c | c in db.cart :: 0 < db.cart[c]
    ensures var (after, reply) := MergeGuestCart(db, user, key, items);
            && reply.Merged?
            && (if k.user == user && IsPosted(items, k.product) && k.product < |db.products|
                   && db.products[k.product].stock > 0 then
                  var held := if k in db.cart then db.cart[k] else 0;
                  var wanted := held + Posted(items, k.product);
                  k in after.cart
                  && after.cart[k] == if wanted <= db.products[k.product].stock then wanted else db.products[k.product].stock
                else (k in after.cart <==> k in db.cart) && (k in db.cart ==> after.cart[k] == db.cart[k]))
            && (w in reply.warnings <==> exists p: nat :: IsPosted(items, p) && Warns(db.products, db.cart, user, items, p, w))
  {
    var ids := SortedIds(Products(items));
    forall p: nat ensures IsPosted(items, p) <==> p in Products(items) {
    }
    MergeOutcome(db.products, db.cart, user, items, k);
    MergeWarns(db.products, db.cart, user, items, ids, w);
    forall p: nat ensures (exists i :: 0 <= i < |ids| && ids[i] == p) <==> IsPosted(items, p) {
      assert p in ids <==> p in Products(items);
    }
  }

  // ----- coupons

  /** A coupon an admin may save. */
  predicate IsSound(c: Coupon) {
    && 1 <= |c.code| <= 64
    && ((c.kind == Percent && 1 <= c.value <= 100) || (c.kind == Fixed && 1 <= c.value))
    && 0 <= c.minOrderAmount
    && (c.usageLimit.Some? ==> 1 <= c.usageLimit.value) && (c.perUserLimit.Some? ==> 1 <= c.perUserLimit.value)
    && (c.startsAt.Some? && c.endsAt.Some? ==> c.startsAt.value < c.endsAt.value)
  }

  ghost predicate CodeTaken(coupons: seq<Coupon>, code: string) {
    exists i :: 0 <= i < |coupons| && coupons[i].code == code
  }

  lemma CreateCouponOutcome(db: Db, c: Coupon)
    ensures CreateCoupon(db, c)
            == if !IsSound(c) then (db, Rejected(InvalidInput))
               else if CodeTaken(db.coupons, c.code) then (db, Rejected(DuplicateCode))
               else (db.(coupons := db.coupons + [c]), NewRow(|db.coupons|))
  {
  }

  /** An edit may keep its code; taking that of another coupon is refused. */
  lemma UpdateCouponOutcome(db: Db, i: nat, c: Coupon)
    ensures UpdateCoupon(db, i, c)
            == if i >= |db.coupons| then (db, Rejected(CouponNotFound))
               else if !IsSound(c) then (db, Rejected(InvalidInput))
               else if c.code != db.coupons[i].code && CodeTaken(db.coupons, c.code) then (db, Rejected(DuplicateCode))
               else (db.(coupons := db.coupons[i := c]), Done)
  {
  }
}
