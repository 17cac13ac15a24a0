/** Cart rows, guest-cart merges and logged stock changes as they run on the tables. */
module CartRepository {
  import opened Basics
  import opened Tables
  import opened CartMerge
  import opened Catalog
  import opened ShopInvariant
  import opened Database

  class CartRepository {
    const db: Database

    constructor (db: Database)
      ensures this.db == db
    {
      this.db := db;
    }

    method AddItem(user: nat, p: nat, quantity: int) returns (reply: Reply)
      requires db.Valid()
      modifies db
      ensures db.Valid()
      ensures (db.Snapshot(), reply) == Catalog.AddItem(old(db.Snapshot()), user, p, quantity)
    {
      AddItemKeepsInv(db.Snapshot(), user, p, quantity);
      if quantity <= 0 {
        return Rejected(InvalidInput);
      }
      if p >= |db.products| {
        return Rejected(ProductNotFound);
      }
      var newQuantity := quantity;
      if CartKey(user, p) in db.cart {
        newQuantity := db.cart[CartKey(user, p)] + quantity;
      }
      if newQuantity > db.products[p].stock {
        return Rejected(InsufficientStock);
      }
      db.cart := db.cart[CartKey(user, p) := newQuantity];
      reply := Done;
    }

    method UpdateItemQuantity(user: nat, p: nat, quantity: int) returns (reply: Reply)
      requires db.Valid()
      modifies db
      ensures db.Valid()
      ensures (db.Snapshot(), reply) == UpdateItem(old(db.Snapshot()), user, p, quantity)
    {
      UpdateItemKeepsInv(db.Snapshot(), user, p, quantity);
      if quantity <= 0 {
        return Rejected(InvalidInput);
      }
      if CartKey(user, p) !in db.cart {
        return Rejected(ItemNotFound);
      }
      if p >= |db.products| {
        // A cart row's product exists: its foreign key deletes the row with the product.
        assert false;
      }
      if quantity > db.products[p].stock {
        return Rejected(InsufficientStock);
      }
      db.cart := db.cart[CartKey(user, p) := quantity];
      reply := Done;
    }

    method DeleteItem(user: nat, p: nat) returns (reply: Reply)
      requires db.Valid()
      modifies db
      ensures db.Valid()
      ensures (db.Snapshot(), reply) == Catalog.DeleteItem(old(db.Snapshot()), user, p)
    {
      DeleteItemKeepsInv(db.Snapshot(), user, p);
      if CartKey(user, p) !in db.cart {
        return Rejected(ItemNotFound);
      }
      db.cart := db.cart - {CartKey(user, p)};
      reply := Done;
    }

    /** One product of a merge: its warning, if any, and its cart row. */
    method MergeProduct(user: nat, p: nat, quantity: int) returns (warnings: seq<Warning>)
      requires 1 <= quantity
      modifies db`cart
      ensures (db.cart, warnings) == MergeOne(db.products, old(db.cart), user, p, quantity)
    {
      warnings := [];
      if p >= |db.products| {
        return [ProductMissing];
      }
      var stock := db.products[p].stock;
      var current := if CartKey(user, p) in db.cart then db.cart[CartKey(user, p)] else 0;
      var wanted := current + quantity;
      if wanted > stock {
        wanted := stock;
        warnings := [ClampedToStock(db.products[p].name)];
      }
      if wanted > 0 {
        db.cart := db.cart[CartKey(user, p) := wanted];
      }
    }

    method MergeAll(user: nat, items: seq<MergeItem>, quantities: map<nat, int>, ids: seq<nat>)
      returns (warnings: seq<Warning>)
      requires ValidItems(items) && quantities.Keys == Products(items)
      requires forall p | p in quantities :: quantities[p] == Aggregate(items, p)
      requires Ascending(ids) && forall p :: p in ids <==> p in Products(items)
      modifies db`cart
      ensures warnings == Warnings(db.products, old(db.cart), user, items, ids)
      ensures db.cart == MergedCart(db.products, old(db.cart), user, items, Products(items))
    {
      ghost var cart := db.cart;
      warnings := [];
      var i := 0;
      assert ids[..|ids|] == ids;
      assert Products(items) == FirstIds(ids, |ids|);
      while i < |ids|
        invariant 0 <= i <= |ids|
        invariant warnings == Warnings(db.products, cart, user, items, ids[..i])
        invariant db.cart == MergedCart(db.products, cart, user, items, FirstIds(ids, i))
      {
        var p := ids[i];
        assert p in ids;
        AggregateIsPositive(items, p);
        MergeRound(db.products, cart, user, items, ids, i);
        WarningsGrow(db.products, cart, user, items, ids, i);
        var more := MergeProduct(user, p, quantities[p]);
        warnings := warnings + more;
        i := i + 1;
      }
    }

    method MergeTx(user: nat, key: string, items: seq<MergeItem>) returns (reply: Reply)
      modifies db
      ensures (db.Snapshot(), reply) == MergeGuestCart(old(db.Snapshot()), user, key, items)
    {
      if exists i | 0 <= i < |items| :: items[i].quantity < 1 || items[i].quantity > MAX_QUANTITY {
        return Rejected(InvalidInput);
      }
      if MergeKey(user, key) in db.merges {
        return Merged(db.merges[MergeKey(user, key)]);
      }
      var quantities := AggregateItems(items);
      var ids := SortIds(quantities.Keys);
      var warnings := MergeAll(user, items, quantities, ids);
      db.merges := db.merges[MergeKey(user, key) := warnings];
      reply := Merged(warnings);
    }

    method Merge(user: nat, key: string, items: seq<MergeItem>) returns (reply: Reply)
      requires db.Valid()
      modifies db
      ensures db.Valid()
      ensures (db.Snapshot(), reply) == MergeGuestCart(old(db.Snapshot()), user, key, items)
    {
      MergeKeepsInv(db.Snapshot(), user, key, items);
      reply := MergeTx(user, key, items);
    }
  }

  class StockRepository {
    const db: Database

    constructor (db: Database)
      ensures this.db == db
    {
      this.db := db;
    }

    method AdjustStock(p: nat, delta: int) returns (reply: Reply)
      requires db.Valid()
      modifies db
      ensures db.Valid()
      ensures (db.Snapshot(), reply) == Catalog.AdjustStock(old(db.Snapshot()), p, delta)
    {
      AdjustStockKeepsInv(db.Snapshot(), p, delta);
      if delta == 0 {
        return Rejected(InvalidInput);
      }
      if p >= |db.products| {
        return Rejected(ProductNotFound);
      }
      var currentStock := db.products[p].stock;
      var newStock := currentStock + delta;
      if newStock < 0 {
        return Rejected(StockNegative);
      }
      // The INTEGER column refuses a larger value.
      if newStock > MAX_INT32 {
        return Rejected(DatabaseError);
      }
      db.products := db.products[p := db.products[p].(stock := newStock)];
      db.adjustments := db.adjustments + [Adjustment(p, delta, currentStock, newStock)];
      reply := Done;
    }

    method Update(p: nat, name: string, price: int, stock: int, education: bool, expiry: Option<int>)
      returns (reply: Reply)
      requires db.Valid()
      modifies db
      ensures db.Valid()
      ensures (db.Snapshot(), reply) == UpdateProduct(old(db.Snapshot()), p, name, price, stock, education, expiry)
    {
      UpdateProductKeepsInv(db.Snapshot(), p, name, price, stock, education, expiry);
      if p >= |db.products| {
        return Rejected(ProductNotFound);
      }
      if !ProductRowAccepted(price, stock) {
        return Rejected(DatabaseError);
      }
      var oldStock := db.products[p].stock;
      db.products := db.products[p := db.products[p].(name := name, price := price, stock := stock,
                                                      education := education, expiry := expiry)];
      if oldStock != stock {
        db.adjustments := db.adjustments + [Adjustment(p, stock - oldStock, oldStock, stock)];
      }
      reply := Done;
    }
  }
}
