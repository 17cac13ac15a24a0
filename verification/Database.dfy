/** The tables as mutable state; a repository's transaction runs on them and is undone by Rollback. */
module Database {
  import opened Basics
  import opened EventKeys
  import opened Tables
  import opened Orders
  import opened Shop
  import opened ShopInvariant

  class Database {
    var products: seq<Product>
    var adjustments: seq<Adjustment>
    var cart: map<CartKey, int>
    var merges: map<MergeKey, seq<Warning>>
    var coupons: seq<Coupon>
    var orders: seq<Order>
    var redemptions: seq<Option<Redemption>>
    var attempts: seq<Attempt>
    var refunds: seq<Refund>
    var returnRequests: seq<Return>
    var resetTokens: map<string, nat>
    var outbox: map<string, Event>
    const notify: bool

    ghost predicate Valid()
      reads this
    {
      Inv(Snapshot())
    }

    function Snapshot(): Db
      reads this
    {
      Db(products, adjustments, cart, merges, coupons, orders, redemptions, attempts, refunds, returnRequests,
         resetTokens, outbox, notify)
    }

    constructor (notifications: bool)
      ensures Valid() && Snapshot() == EmptyDb(notifications)
    {
      products, adjustments, cart, merges, coupons := [], [], map[], map[], [];
      orders, redemptions, attempts, refunds, returnRequests := [], [], [], [], [];
      resetTokens, outbox, notify := map[], map[], notifications;
      new;
      InitialInv(notifications);
    }

    /** What the deferred rollback of an uncommitted transaction does. */
    method Rollback(saved: Db)
      requires saved.notify == notify
      modifies this
      ensures Snapshot() == saved
    {
      products, adjustments, cart, merges := saved.products, saved.adjustments, saved.cart, saved.merges;
      coupons, orders, redemptions := saved.coupons, saved.orders, saved.redemptions;
      attempts, refunds, returnRequests := saved.attempts, saved.refunds, saved.returnRequests;
      resetTokens, outbox := saved.resetTokens, saved.outbox;
    }

    method EnqueueTx(e: Event)
      modifies this`outbox
      ensures Snapshot() == Enqueue(old(Snapshot()), e)
    {
      if notify && Key(e) !in outbox {
        outbox := outbox[Key(e) := e];
      }
    }

    /** Marks the order's redemption released unless it already is; tells how many rows changed. */
    method ReleaseRedemptionForOrder(o: nat) returns (rows: nat)
      modifies this`redemptions
      ensures redemptions == Release(old(redemptions), o)
      ensures rows == if redemptions != old(redemptions) then 1 else 0
    {
      rows := 0;
      if o < |redemptions| {
        match redemptions[o]
        case None =>
        case Some(r) =>
          if !r.released {
            redemptions := redemptions[o := Some(r.(released := true))];
            rows := 1;
          }
      }
    }
  }
}
