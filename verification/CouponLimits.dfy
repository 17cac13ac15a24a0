/** Coupon usage limits over whole runs. */
module CouponLimits {
  import opened Basics
  import opened Statuses
  import opened Pricing
  import opened Tables
  import opened Orders
  import opened Catalog
  import opened Shop
  import opened LedgerInvariant
  import opened ShopInvariant

  /** The limits on this row of coupon c leave room for the uses there are. */
  ghost predicate LimitsFit(coupon: Coupon, redemptions: seq<Option<Redemption>>, c: nat) {
    && (coupon.usageLimit.Some? ==> CountActive(redemptions, c) <= coupon.usageLimit.value)
    && (coupon.perUserLimit.Some? ==>
         forall user: nat :: CountActiveForUser(redemptions, c, user) <= coupon.perUserLimit.value)
  }

  /** The active redemptions of coupon c stay within its two limits. */
  ghost predicate LimitsRespected(coupons: seq<Coupon>, redemptions: seq<Option<Redemption>>, c: nat) {
    c < |coupons| ==> LimitsFit(coupons[c], redemptions, c)
  }

  lemma {:induction false} SumMonotone<T>(s: seq<T>, t: seq<T>, f: T -> int)
    requires |s| == |t| && forall i | 0 <= i < |s| :: f(t[i]) <= f(s[i])
    ensures Sum(t, f) <= Sum(s, f)
  {
    if s != [] {
      SumMonotone(s[..|s| - 1], t[..|t| - 1], f);
    }
  }

  // ----- releasing

  /** Some redemptions were released and nothing else happened to them. */
  ghost predicate Releases(before: seq<Option<Redemption>>, after: seq<Option<Redemption>>) {
    && |after| == |before|
    && forall o | 0 <= o < |before| ::
         after[o] == before[o] || (before[o].Some? && after[o] == Some(before[o].value.(released := true)))
  }

  lemma ReleasingRespectsLimits(coupons: seq<Coupon>, before: seq<Option<Redemption>>,
                                after: seq<Option<Redemption>>, c: nat)
    requires LimitsRespected(coupons, before, c) && Releases(before, after)
    ensures LimitsRespected(coupons, after, c)
  {
    SumMonotone(before, after, ActiveFor(c));
    forall user: nat ensures CountActiveForUser(after, c, user) <= CountActiveForUser(before, c, user) {
      SumMonotone(before, after, ActiveForUser(c, user));
    }
  }

  lemma {:induction false} CancelEachReleases(db: Db, picks: seq<nat>, count: nat)
    requires forall i | 0 <= i < |picks| :: picks[i] < |db.orders|
    ensures var r := CancelEach(db, picks, count);
            r.Some? ==> Releases(db.redemptions, r.value.0.redemptions)
    decreases picks
  {
    if picks != [] {
      var o := picks[0];
      if PaymentBlocksCancellation(db.attempts, o, db.orders[o].payment) {
        CancelEachReleases(db, picks[1..], count);
      } else if Restorable(db.products, db.orders[o].lines) {
        CancelEachReleases(CancelOrder(db, o), picks[1..], count + 1);
      }
    }
  }

  // ----- redeeming

  /** A redemption is only added after both limits were found to have room for it. */
  lemma RedeemingRespectsLimits(db: Db, user: nat, redeemed: nat, itemsSubtotal: int, now: int, c: nat)
    requires LimitsRespected(db.coupons, db.redemptions, c) && redeemed < |db.coupons|
    requires Ineligibility(db, redeemed, user, itemsSubtotal, now).None?
    ensures LimitsRespected(db.coupons, db.redemptions + [Some(Redemption(redeemed, user, false))], c)
  {
    var r := Some(Redemption(redeemed, user, false));
    SumAppend(db.redemptions, r, ActiveFor(c));
    forall u: nat
      ensures CountActiveForUser(db.redemptions + [r], c, u)
              == CountActiveForUser(db.redemptions, c, u) + (if redeemed == c && u == user then 1 else 0)
    {
      SumAppend(db.redemptions, r, ActiveForUser(c, u));
    }
  }

  lemma UnredeemedRespectsLimits(coupons: seq<Coupon>, redemptions: seq<Option<Redemption>>, c: nat)
    requires LimitsRespected(coupons, redemptions, c)
    ensures LimitsRespected(coupons, redemptions + [None], c)
  {
    var r: Option<Redemption> := None;
    SumAppend(redemptions, r, ActiveFor(c));
    forall u: nat
      ensures CountActiveForUser(redemptions + [r], c, u) == CountActiveForUser(redemptions, c, u)
    {
      SumAppend(redemptions, r, ActiveForUser(c, u));
    }
  }

  lemma CheckoutRespectsLimits(db: Db, user: nat, input: CheckoutInput, ship: ShippingConfig, now: int, today: int, c: nat)
    requires LimitsRespected(db.coupons, db.redemptions, c)
    ensures LimitsRespected(db.coupons, CreateFromCart(db, user, input, ship, now, today).0.redemptions, c)
  {
    var (after, reply) := CreateFromCart(db, user, input, ship, now, today);
    if reply.NewRow? {
      var order := CheckoutPlaces(db, user, input, ship, now, today);
      if order.coupon.Some? {
        RedeemingRespectsLimits(db, user, order.coupon.value, order.itemsSubtotal, now, c);
      } else {
        UnredeemedRespectsLimits(db.coupons, db.redemptions, c);
      }
    }
  }

  /** Nobody has used a coupon that has only just been created. */
  lemma NewCouponIsUnused(db: Db, c: nat)
    requires CouponInv(db.coupons, db.orders, db.redemptions) && |db.coupons| <= c
    ensures CountActive(db.redemptions, c) == 0
    ensures forall user: nat :: CountActiveForUser(db.redemptions, c, user) == 0
  {
    forall o | 0 <= o < |db.redemptions| ensures ActiveFor(c)(db.redemptions[o]) == 0 {
      assert RedemptionInv(db.orders[o], db.redemptions[o], |db.coupons|);
    }
    SumZero(db.redemptions, ActiveFor(c));
    forall user: nat ensures CountActiveForUser(db.redemptions, c, user) == 0 {
      SumZero(db.redemptions, ActiveForUser(c, user));
    }
  }

  lemma NewCouponRespectsLimits(db: Db, coupon: Coupon, c: nat)
    requires CouponInv(db.coupons, db.orders, db.redemptions)
    requires LimitsRespected(db.coupons, db.redemptions, c)
    ensures LimitsRespected(CreateCoupon(db, coupon).0.coupons, db.redemptions, c)
  {
    NewCouponIsUnused(db, |db.coupons|);
  }

  /**
   * An accepted edit leaves the limits respected exactly when neither new limit is below the number of
   * live orders that use the coupon, in all or of one customer; the code checks neither.
   */
  lemma EditRespectsLimitsExactlyWhenTheyFit(db: Db, c: nat, coupon: Coupon)
    requires Inv(db) && UpdateCoupon(db, c, coupon).1.Done?
    ensures var after := UpdateCoupon(db, c, coupon).0;
            LimitsRespected(after.coupons, after.redemptions, c) <==>
              && (coupon.usageLimit.Some? ==> Sum(db.orders, UsesCoupon(c)) <= coupon.usageLimit.value)
              && (coupon.perUserLimit.Some? ==>
                   forall user: nat :: Sum(db.orders, UsesCouponBy(c, user)) <= coupon.perUserLimit.value)
  {
    forall user: nat
      ensures CountActive(db.redemptions, c) == Sum(db.orders, UsesCoupon(c))
      ensures CountActiveForUser(db.redemptions, c, user) == Sum(db.orders, UsesCouponBy(c, user))
    {
      ActiveRedemptionsAreLiveOrders(db.coupons, db.orders, db.redemptions, c, user);
    }
    ActiveRedemptionsAreLiveOrders(db.coupons, db.orders, db.redemptions, c, 0);
  }

  lemma UpdateStatusReleases(db: Db, o: nat, newStatus: OrderStatus)
    ensures Releases(db.redemptions, UpdateStatus(db, o, newStatus).0.redemptions)
  {
  }

  lemma CancelOwnReleases(db: Db, user: nat, o: nat)
    ensures Releases(db.redemptions, CancelOwnOrder(db, user, o).0.redemptions)
  {
  }

  lemma ExpireReservationsReleases(db: Db, cutoff: int, locked: set<nat>, seen: seq<Attempt>)
    ensures Releases(db.redemptions, ExpireReservations(db, cutoff, locked, seen).0.redemptions)
  {
    CancelEachReleases(db, ExpiryPicks(db.orders, seen, cutoff, locked, 0, EXPIRY_BATCH), 0);
  }

  lemma OrderStepRespectsLimits(db: Db, s: Step, c: nat)
    requires LimitsRespected(db.coupons, db.redemptions, c) && IsOrderStep(s)
    ensures LimitsRespected(db.coupons, Next(db, s).redemptions, c)
  {
    if s.DoCheckout? {
      CheckoutRespectsLimits(db, s.user, s.input, s.ship, s.now, s.today, c);
      assert Next(db, s) == CreateFromCart(db, s.user, s.input, s.ship, s.now, s.today).0;
    } else {
      OtherOrderStepsRelease(db, s);
      ReleasingRespectsLimits(db.coupons, db.redemptions, Next(db, s).redemptions, c);
    }
  }

  lemma OtherOrderStepsRelease(db: Db, s: Step)
    requires IsOrderStep(s) && !s.DoCheckout?
    ensures Releases(db.redemptions, Next(db, s).redemptions)
  {
    if s.DoUpdateStatus? {
      UpdateStatusReleases(db, s.order, s.newStatus);
      assert Next(db, s) == UpdateStatus(db, s.order, s.newStatus).0;
    } else if s.DoCancelOwn? {
      CancelOwnReleases(db, s.user, s.order);
      assert Next(db, s) == CancelOwnOrder(db, s.user, s.order).0;
    } else {
      ExpireReservationsReleases(db, s.cutoff, s.locked, s.seen);
      assert Next(db, s) == ExpireReservations(db, s.cutoff, s.locked, s.seen).0;
    }
  }

  lemma OtherStepsLeaveCoupons(db: Db, s: Step)
    requires !s.DoCreateCoupon? && !s.DoUpdateCoupon? && !IsOrderStep(s)
    ensures Next(db, s).coupons == db.coupons && Next(db, s).redemptions == db.redemptions
  {
  }

  lemma OrderStepsLeaveCouponTable(db: Db, s: Step)
    requires IsOrderStep(s)
    ensures Next(db, s).coupons == db.coupons
  {
  }

  /** A step edits coupon c, if it does, to limits that fit the uses there are. */
  ghost predicate EditFits(db: Db, s: Step, c: nat) {
    s.DoUpdateCoupon? && s.id == c && UpdateCoupon(db, c, s.coupon).1.Done? ==> LimitsFit(s.coupon, db.redemptions, c)
  }

  lemma EditRespectsLimits(db: Db, s: Step, c: nat)
    requires LimitsRespected(db.coupons, db.redemptions, c) && s.DoUpdateCoupon?
    ensures LimitsRespected(Next(db, s).coupons, Next(db, s).redemptions, c) <==> EditFits(db, s, c)
  {
    assert Next(db, s) == UpdateCoupon(db, s.id, s.coupon).0;
  }

  /** The one step that can leave the limits exceeded is an edit to limits below the uses there are. */
  lemma StepRespectsLimits(db: Db, s: Step, c: nat)
    requires CouponInv(db.coupons, db.orders, db.redemptions) && LimitsRespected(db.coupons, db.redemptions, c)
    ensures LimitsRespected(Next(db, s).coupons, Next(db, s).redemptions, c) <==> EditFits(db, s, c)
  {
    if IsOrderStep(s) {
      OrderStepRespectsLimits(db, s, c);
      OrderStepsLeaveCouponTable(db, s);
    } else if s.DoUpdateCoupon? {
      EditRespectsLimits(db, s, c);
    } else if s.DoCreateCoupon? {
      NewCouponRespectsLimits(db, s.coupon, c);
      assert Next(db, s) == CreateCoupon(db, s.coupon).0;
    } else {
      OtherStepsLeaveCoupons(db, s);
    }
  }

  // ----- whole runs

  /** The limits of coupon c are respected after the run and were at every moment of it. */
  ghost predicate AlwaysRespected(db: Db, steps: seq<Step>, c: nat) {
    && LimitsRespected(Run(db, steps).coupons, Run(db, steps).redemptions, c)
    && (steps != [] ==> AlwaysRespected(db, steps[..|steps| - 1], c))
  }

  /** Every edit of coupon c during the run fits the uses there were at its moment. */
  ghost predicate EditsFit(db: Db, steps: seq<Step>, c: nat) {
    steps != [] ==>
      && EditFits(Run(db, steps[..|steps| - 1]), steps[|steps| - 1], c)
      && EditsFit(db, steps[..|steps| - 1], c)
  }

  /**
   * From any state of the shop in which they are respected, the limits of a coupon are never exceeded
   * during a run if and only if each accepted edit of the coupon fits the uses there are when it is made.
   */
  lemma {:induction false} LimitsHoldExactlyWhenEditsFit(db: Db, steps: seq<Step>, c: nat)
    requires Inv(db) && LimitsRespected(db.coupons, db.redemptions, c)
    ensures AlwaysRespected(db, steps, c) <==> EditsFit(db, steps, c)
  {
    if steps != [] {
      var init, last := steps[..|steps| - 1], steps[|steps| - 1];
      LimitsHoldExactlyWhenEditsFit(db, init, c);
      RunKeepsInv(db, init);
      if AlwaysRespected(db, init, c) {
        StepRespectsLimits(Run(db, init), last, c);
      }
    }
  }

  /** Each limit stays as it is, is raised, or is removed. */
  predicate LowersNoLimit(before: Coupon, after: Coupon) {
    && (after.usageLimit.Some? ==> before.usageLimit.Some? && before.usageLimit.value <= after.usageLimit.value)
    && (after.perUserLimit.Some? ==> before.perUserLimit.Some? && before.perUserLimit.value <= after.perUserLimit.value)
  }

  /** No accepted edit of coupon c during the run lowers a limit, whatever else it changes. */
  ghost predicate LimitsNeverLowered(db: Db, steps: seq<Step>, c: nat) {
    steps != [] ==>
      var init, last := steps[..|steps| - 1], steps[|steps| - 1];
      && (last.DoUpdateCoupon? && last.id == c && UpdateCoupon(Run(db, init), c, last.coupon).1.Done? ==>
           LowersNoLimit(Run(db, init).coupons[c], last.coupon))
      && LimitsNeverLowered(db, init, c)
  }

  /**
   * A coupon may be switched off, dated anew or revalued at any time: as long as no edit lowers a limit,
   * its active redemptions never exceed its usage limit nor, for any customer, its per-user limit.
   */
  lemma {:induction false} LimitsHoldOverRuns(db: Db, steps: seq<Step>, c: nat)
    requires Inv(db) && LimitsRespected(db.coupons, db.redemptions, c)
    requires LimitsNeverLowered(db, steps, c)
    ensures AlwaysRespected(db, steps, c)
  {
    if steps != [] {
      var init, last := steps[..|steps| - 1], steps[|steps| - 1];
      LimitsHoldOverRuns(db, init, c);
      RunKeepsInv(db, init);
      assert LimitsRespected(Run(db, init).coupons, Run(db, init).redemptions, c);
      StepRespectsLimits(Run(db, init), last, c);
    }
  }

  // ----- an edit that breaks a limit

  const SAVER := Coupon("SAVE", Fixed, 1, 0, None, None, None, None, true)

  const CAPPED := SAVER.(usageLimit := Some(1))

  const BUYING := CheckoutInput("digital", "SAVE")

  const FREE := ShippingConfig(0, 0, 0, true)

  /** A course on the shelf, a coupon without limits, and the course in the carts of customers 0 and 1. */
  const SHELF: seq<Step> := [DoCreateProduct("course", 10, 2, true, None), DoCreateCoupon(SAVER),
                             DoAddItem(0, 0, 1), DoAddItem(1, 0, 1)]

  /** Both buy it with the coupon; then the coupon is limited to one use. */
  const OVERSOLD: seq<Step> := SHELF + [DoCheckout(0, BUYING, FREE, 0, 0)] + [DoCheckout(1, BUYING, FREE, 0, 0)]
                               + [DoUpdateCoupon(0, CAPPED)]

  function Course(stock: int): Product {
    Product("course", 10, stock, true, None, 2)
  }

  function Bought(user: nat): Order {
    Order(user, Pending, Unpaid, Manual, 9, "IRR", [Line(0, 10, 1)], 10, 1, 0, Some(0), 0)
  }

  function AtTheShelf(): Db {
    EmptyDb(false).(products := [Course(2)], coupons := [SAVER], cart := map[CartKey(0, 0) := 1, CartKey(1, 0) := 1])
  }

  function AfterOne(): Db {
    AtTheShelf().(products := [Course(1)], cart := map[CartKey(1, 0) := 1], orders := [Bought(0)],
                  redemptions := [Some(Redemption(0, 0, false))])
  }

  function AfterBoth(): Db {
    AtTheShelf().(products := [Course(0)], cart := map[], orders := [Bought(0), Bought(1)],
                  redemptions := [Some(Redemption(0, 0, false)), Some(Redemption(0, 1, false))])
  }

  lemma RunAppend(db: Db, steps: seq<Step>, s: Step)
    ensures Run(db, steps + [s]) == Next(Run(db, steps), s)
  {
    assert (steps + [s])[..|steps|] == steps;
  }

  lemma FillingTheShelf()
    ensures Run(EmptyDb(false), SHELF) == AtTheShelf()
  {
    var none, one: seq<Step> := [], [SHELF[0]];
    var two, three := one + [SHELF[1]], one + [SHELF[1]] + [SHELF[2]];
    RunAppend(EmptyDb(false), none, SHELF[0]);
    assert none + [SHELF[0]] == one;
    RunAppend(EmptyDb(false), one, SHELF[1]);
    RunAppend(EmptyDb(false), two, SHELF[2]);
    RunAppend(EmptyDb(false), three, SHELF[3]);
    assert SHELF == three + [SHELF[3]];
  }

  lemma BuyingOne(db: Db, user: nat, stock: int)
    requires |db.products| == 1 && db.products[0] == Course(stock) && 1 <= stock && db.coupons == [SAVER] && !db.notify
    requires CartKey(user, 0) in db.cart && db.cart[CartKey(user, 0)] == 1
    ensures var after := CreateFromCart(db, user, BUYING, FREE, 0, 0).0;
            after == db.(products := [Course(stock - 1)], cart := WithoutUser(db.cart, user),
                         orders := db.orders + [Bought(user)],
                         redemptions := db.redemptions + [Some(Redemption(0, user, false))])
  {
    var l := Line(0, 10, 1);
    assert CartLines(db.products, db.cart, user, 0) == [];
    assert CartLines(db.products, db.cart, user, 1) == [l];
    assert [l][..0] == [];
    assert Subtotal([l]) == 10;
    assert Quantity([l], 0) == 1;
    assert FindCoupon(db.coupons, "SAVE") == Some(0);
  }

  lemma FirstPurchase()
    ensures Next(AtTheShelf(), DoCheckout(0, BUYING, FREE, 0, 0)) == AfterOne()
  {
    BuyingOne(AtTheShelf(), 0, 2);
    assert WithoutUser(AtTheShelf().cart, 0) == AfterOne().cart;
  }

  lemma SecondPurchase()
    ensures Next(AfterOne(), DoCheckout(1, BUYING, FREE, 0, 0)) == AfterBoth()
  {
    BuyingOne(AfterOne(), 1, 1);
    assert WithoutUser(AfterOne().cart, 1) == AfterBoth().cart;
  }

  lemma Limiting()
    ensures Next(AfterBoth(), DoUpdateCoupon(0, CAPPED)) == AfterBoth().(coupons := [CAPPED])
  {
    assert Next(AfterBoth(), DoUpdateCoupon(0, CAPPED)) == UpdateCoupon(AfterBoth(), 0, CAPPED).0;
    assert [SAVER][0 := CAPPED] == [CAPPED];
  }

  lemma BothCount()
    ensures CountActive(AfterBoth().redemptions, 0) == 2
  {
    var none: seq<Option<Redemption>> := [];
    var first, second := Some(Redemption(0, 0, false)), Some(Redemption(0, 1, false));
    SumAppend(none, first, ActiveFor(0));
    assert none + [first] == [first];
    SumAppend([first], second, ActiveFor(0));
    assert [first] + [second] == AfterBoth().redemptions;
  }

  lemma OversoldIs()
    ensures Run(EmptyDb(false), OVERSOLD) == AfterBoth().(coupons := [CAPPED])
  {
    var first, both := SHELF + [DoCheckout(0, BUYING, FREE, 0, 0)],
                       SHELF + [DoCheckout(0, BUYING, FREE, 0, 0)] + [DoCheckout(1, BUYING, FREE, 0, 0)];
    FillingTheShelf();
    RunAppend(EmptyDb(false), SHELF, DoCheckout(0, BUYING, FREE, 0, 0));
    FirstPurchase();
    assert Run(EmptyDb(false), first) == AfterOne();
    RunAppend(EmptyDb(false), first, DoCheckout(1, BUYING, FREE, 0, 0));
    SecondPurchase();
    assert Run(EmptyDb(false), both) == AfterBoth();
    RunAppend(EmptyDb(false), both, DoUpdateCoupon(0, CAPPED));
    Limiting();
  }

  /** A reachable shop in which lowering a limit leaves it exceeded: the code accepts the edit without counting. */
  lemma LoweringALimitBreaksIt()
    ensures var db := Run(EmptyDb(false), OVERSOLD);
            && db.coupons == [CAPPED] && CountActive(db.redemptions, 0) == 2
            && !LimitsRespected(db.coupons, db.redemptions, 0)
  {
    OversoldIs();
    BothCount();
  }
}
