/** Products, logged stock changes, carts and coupon administration. */
module Catalog {
  import opened Basics
  import opened Pricing
  import opened Tables
  import opened CartMerge
  import opened Orders

  // ----- stock

  predicate ProductRowAccepted(price: int, stock: int) {
    0 <= price <= MAX_INT64 && 0 <= stock <= MAX_INT32
  }

  function CreateProduct(db: Db, name: string, price: int, stock: int, education: bool, expiry: Option<int>)
    : (result: (Db, Reply))
    ensures OnlyCatalogDiffers(db, result.0)
  {
    if !ProductRowAccepted(price, stock) then (db, Rejected(DatabaseError))
    else
      (db.(products := db.products + [Product(name, price, stock, education, expiry, stock)]), NewRow(|db.products|))
  }

  function AdjustStock(db: Db, p: nat, delta: int): (result: (Db, Reply))
    ensures OnlyCatalogDiffers(db, result.0)
  {
    if delta == 0 then (db, Rejected(InvalidInput))
    else if p >= |db.products| then (db, Rejected(ProductNotFound))
    else
      var before := db.products[p].stock;
      var after := before + delta;
      if after < 0 then (db, Rejected(StockNegative))
      else if after > MAX_INT32 then (db, Rejected(DatabaseError))
      else
        (db.(products := db.products[p := db.products[p].(stock := after)],
             adjustments := db.adjustments + [Adjustment(p, delta, before, after)]),
         Done)
  }

  function UpdateProduct(db: Db, p: nat, name: string, price: int, stock: int, education: bool, expiry: Option<int>)
    : (result: (Db, Reply))
    ensures OnlyCatalogDiffers(db, result.0)
  {
    if p >= |db.products| then (db, Rejected(ProductNotFound))
    else if !ProductRowAccepted(price, stock) then (db, Rejected(DatabaseError))
    else
      var existing := db.products[p];
      var updated := existing.(name := name, price := price, stock := stock, education := education, expiry := expiry);
      (db.(products := db.products[p := updated],
           adjustments := if existing.stock == stock then db.adjustments
                          else db.adjustments + [Adjustment(p, stock - existing.stock, existing.stock, stock)]),
       Done)
  }

  // ----- carts

  function AddItem(db: Db, user: nat, p: nat, quantity: int): (result: (Db, Reply))
    ensures OnlyCatalogDiffers(db, result.0)
  {
    if quantity <= 0 then (db, Rejected(InvalidInput))
    else if p >= |db.products| then (db, Rejected(ProductNotFound))
    else
      var wanted := CartQuantity(db.cart, user, p) + quantity;
      if wanted > db.products[p].stock then (db, Rejected(InsufficientStock))
      else (db.(cart := db.cart[CartKey(user, p) := wanted]), Done)
  }

  function UpdateItem(db: Db, user: nat, p: nat, quantity: int): (result: (Db, Reply))
    ensures OnlyCatalogDiffers(db, result.0)
  {
    if quantity <= 0 then (db, Rejected(InvalidInput))
    else if CartKey(user, p) !in db.cart then (db, Rejected(ItemNotFound))
    else if p >= |db.products| then (db, Rejected(ProductNotFound))
    else if quantity > db.products[p].stock then (db, Rejected(InsufficientStock))
    else (db.(cart := db.cart[CartKey(user, p) := quantity]), Done)
  }

  function DeleteItem(db: Db, user: nat, p: nat): (result: (Db, Reply))
    ensures OnlyCatalogDiffers(db, result.0)
  {
    if CartKey(user, p) !in db.cart then (db, Rejected(ItemNotFound))
    else (db.(cart := db.cart - {CartKey(user, p)}), Done)
  }

  ghost function MergeGuestCart(db: Db, user: nat, key: string, items: seq<MergeItem>): (result: (Db, Reply))
    ensures OnlyCatalogDiffers(db, result.0)
  {
    if !ValidItems(items) then (db, Rejected(InvalidInput))
    else if MergeKey(user, key) in db.merges then (db, Merged(db.merges[MergeKey(user, key)]))
    else
      var ids := Products(items);
      var warnings := Warnings(db.products, db.cart, user, items, SortedIds(ids));
      (db.(cart := MergedCart(db.products, db.cart, user, items, ids),
           merges := db.merges[MergeKey(user, key) := warnings]),
       Merged(warnings))
  }

  // ----- coupons

  predicate ValidCoupon(c: Coupon) {
    && 1 <= |c.code| <= 64
    && !c.kind.OtherType?
    && (c.kind.Percent? ==> 1 <= c.value <= 100)
    && (c.kind.Fixed? ==> c.value > 0)
    && 0 <= c.minOrderAmount
    && (c.usageLimit.Some? ==> c.usageLimit.value > 0)
    && (c.perUserLimit.Some? ==> c.perUserLimit.value > 0)
    && (c.startsAt.Some? && c.endsAt.Some? ==> c.startsAt.value < c.endsAt.value)
  }

  function CreateCoupon(db: Db, c: Coupon): (result: (Db, Reply))
    ensures OnlyCatalogDiffers(db, result.0)
  {
    if !ValidCoupon(c) then (db, Rejected(InvalidInput))
    else if FindCoupon(db.coupons, c.code).Some? then (db, Rejected(DuplicateCode))
    else (db.(coupons := db.coupons + [c]), NewRow(|db.coupons|))
  }

  function UpdateCoupon(db: Db, i: nat, c: Coupon): (result: (Db, Reply))
    ensures OnlyCatalogDiffers(db, result.0)
  {
    if i >= |db.coupons| then (db, Rejected(CouponNotFound))
    else if !ValidCoupon(c) then (db, Rejected(InvalidInput))
    else if c.code != db.coupons[i].code && FindCoupon(db.coupons, c.code).Some? then (db, Rejected(DuplicateCode))
    else (db.(coupons := db.coupons[i := c]), Done)
  }
}
