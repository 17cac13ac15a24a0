/** Money arithmetic of checkout in Go's int64: coupon discounts, shipping fees and order totals. */
module Pricing {
  import opened Basics

  const MAX_INT64 := 0x7FFF_FFFF_FFFF_FFFF
  const MIN_INT64 := -0x8000_0000_0000_0000
  const TWO_TO_64 := 0x1_0000_0000_0000_0000

  predicate FitsInt64(x: int) {
    MIN_INT64 <= x <= MAX_INT64
  }

  /** Two's-complement wrap-around of an int64 result. */
  function Wrap(x: int): int {
    (x - MIN_INT64) % TWO_TO_64 + MIN_INT64
  }

  lemma WrapIsIdentityExactlyInRange(x: int)
    ensures FitsInt64(Wrap(x))
    ensures Wrap(x) == x <==> FitsInt64(x)
  {
  }

  /** Wrapping an intermediate result never changes the wrapped final result. */
  lemma WrapAbsorbs(x: int, y: int)
    ensures Wrap(Wrap(x) + y) == Wrap(x + y)
  {
    var k := (x - MIN_INT64) / TWO_TO_64;
    assert Wrap(x) + y - MIN_INT64 == (x + y - MIN_INT64) + (-k) * TWO_TO_64;
    ModShift(x + y - MIN_INT64, -k);
  }

  lemma ModShift(x: int, k: int)
    ensures (x + k * TWO_TO_64) % TWO_TO_64 == x % TWO_TO_64
  {
    var q, q' := x / TWO_TO_64, (x + k * TWO_TO_64) / TWO_TO_64;
    assert x == q * TWO_TO_64 + x % TWO_TO_64;
    assert (q' - q - k) * TWO_TO_64 == x % TWO_TO_64 - (x + k * TWO_TO_64) % TWO_TO_64;
  }

  /** Go's integer division by a positive divisor, which truncates toward zero. */
  function TruncatedDiv(x: int, d: int): int
    requires d > 0
  {
    if x >= 0 then x / d else -((-x) / d)
  }

  // ----- coupon discounts

  datatype DiscountType = Percent | Fixed | OtherType(name: string)

  function CalculateDiscount(kind: DiscountType, value: int, itemsSubtotal: int): int {
    if itemsSubtotal <= 0 then 0
    else
      var raw :=
        match kind
        case Percent => TruncatedDiv(Wrap(itemsSubtotal * value), 100)
        case Fixed => value
        case OtherType(_) => 0;
      var capped := if raw > itemsSubtotal then itemsSubtotal else raw;
      if capped < 0 then 0 else capped
  }

  /** No coupon, of any type and value and even on overflow, takes more than the items cost. */
  lemma DiscountWithinSubtotal(kind: DiscountType, value: int, itemsSubtotal: int)
    ensures 0 <= CalculateDiscount(kind, value, itemsSubtotal)
    ensures 0 <= itemsSubtotal ==> CalculateDiscount(kind, value, itemsSubtotal) <= itemsSubtotal
  {
  }

  lemma PercentOfIsBounded(percent: int, itemsSubtotal: int)
    requires 1 <= percent <= 100 && 0 <= itemsSubtotal
    ensures 0 <= itemsSubtotal * percent <= 100 * itemsSubtotal
  {
    assert itemsSubtotal * (100 - percent) >= 0;
  }

  /** A positive product that overflows wraps at least once around. */
  lemma OverflowLosesATurn(x: int)
    requires MAX_INT64 < x
    ensures Wrap(x) <= x - TWO_TO_64
  {
    assert (x - MIN_INT64) / TWO_TO_64 >= 1;
  }

  /** Before it is clamped, the percent discount of a wrapped product lies below the floor. */
  lemma WrappedDiscountIsTooSmall(percent: int, itemsSubtotal: int)
    requires 1 <= percent <= 100 && 0 <= itemsSubtotal <= MAX_INT64
    requires itemsSubtotal * percent > MAX_INT64
    ensures 100 * CalculateDiscount(Percent, percent, itemsSubtotal) + 100 <= itemsSubtotal * percent
  {
    var wrapped := Wrap(itemsSubtotal * percent);
    OverflowLosesATurn(itemsSubtotal * percent);
    assert TruncatedDiv(wrapped, 100) <= 0 || 100 * TruncatedDiv(wrapped, 100) <= wrapped;
  }

  lemma ExactProductGivesTheFloor(percent: int, itemsSubtotal: int)
    requires 1 <= percent <= 100 && 0 <= itemsSubtotal
    requires itemsSubtotal * percent <= MAX_INT64
    ensures var d := CalculateDiscount(Percent, percent, itemsSubtotal);
            100 * d <= itemsSubtotal * percent < 100 * d + 100
  {
    PercentOfIsBounded(percent, itemsSubtotal);
    WrapIsIdentityExactlyInRange(itemsSubtotal * percent);
  }

  /** The percent discount is the exact floor if and only if the product fits in an int64. */
  lemma PercentDiscountIsFloorExactlyWithoutOverflow(percent: int, itemsSubtotal: int)
    requires 1 <= percent <= 100
    requires 0 <= itemsSubtotal <= MAX_INT64
    ensures var d := CalculateDiscount(Percent, percent, itemsSubtotal);
            (100 * d <= itemsSubtotal * percent < 100 * d + 100)
              <==> itemsSubtotal * percent <= MAX_INT64
  {
    if itemsSubtotal * percent <= MAX_INT64 {
      ExactProductGivesTheFloor(percent, itemsSubtotal);
    } else {
      WrappedDiscountIsTooSmall(percent, itemsSubtotal);
    }
  }

  lemma SumOfFloors(x: int, y: int, a: int, b: int, whole: int)
    requires 100 * a <= x && 100 * b <= y && x + y < 100 * whole + 100
    ensures a + b <= whole
  {
  }

  /** When the product of the whole no longer fits, it wraps below zero and the whole order gets no discount. */
  lemma OverflowingWholeGetsNothing(percent: int, a: int, b: int)
    requires 1 <= percent <= 100 && 0 <= a && 0 <= b
    requires a * percent <= MAX_INT64 && b * percent <= MAX_INT64 && (a + b) * percent > MAX_INT64
    ensures CalculateDiscount(Percent, percent, a + b) == 0
  {
    assert (a + b) * percent == a * percent + b * percent;
    OverflowLosesATurn((a + b) * percent);
    assert Wrap((a + b) * percent) < 0;
  }

  /**
   * Two orders whose discounts are exact never get more discount than both in one - exactly as long as the
   * product of the whole fits an int64 as well.
   */
  lemma SplittingNeverIncreasesPercentDiscount(percent: int, a: int, b: int)
    requires 1 <= percent <= 100
    requires 0 <= a && 0 <= b && a * percent <= MAX_INT64 && b * percent <= MAX_INT64
    ensures CalculateDiscount(Percent, percent, a) + CalculateDiscount(Percent, percent, b)
              <= CalculateDiscount(Percent, percent, a + b)
            <==> (a + b) * percent <= MAX_INT64
  {
    assert a * percent + b * percent == (a + b) * percent;
    ExactProductGivesTheFloor(percent, a);
    ExactProductGivesTheFloor(percent, b);
    if (a + b) * percent <= MAX_INT64 {
      ExactProductGivesTheFloor(percent, a + b);
      SumOfFloors(a * percent, b * percent, CalculateDiscount(Percent, percent, a),
                  CalculateDiscount(Percent, percent, b), CalculateDiscount(Percent, percent, a + b));
    } else {
      OverflowingWholeGetsNothing(percent, a, b);
      assert 100 * CalculateDiscount(Percent, percent, a) + 100 * CalculateDiscount(Percent, percent, b) + 200
             > (a + b) * percent;
    }
  }

  // ----- shipping

  datatype ShippingConfig = ShippingConfig(standard: int, express: int, freeThreshold: int, configured: bool)

  predicate IsValidShippingMethod(shippingMethod: string) {
    shippingMethod == "standard" || shippingMethod == "digital" || shippingMethod == "express"
  }

  function Fee(c: ShippingConfig, shippingMethod: string, subtotal: int): Option<int> {
    if shippingMethod == "digital" then Some(0)
    else if !c.configured || !IsValidShippingMethod(shippingMethod) then None
    else if c.freeThreshold > 0 && subtotal >= c.freeThreshold && shippingMethod == "standard" then Some(0)
    else if shippingMethod == "standard" then Some(c.standard)
    else Some(c.express)
  }

  /** Checkout looks the fee up twice and ignores the second outcome: that one cannot be a rejection. */
  lemma SecondFeeLookupSucceeds(c: ShippingConfig, shippingMethod: string, chosen: string, x: int, y: int)
    requires chosen == shippingMethod || chosen == "digital"
    ensures Fee(c, shippingMethod, x).Some? ==> Fee(c, chosen, y).Some?
    ensures Fee(c, chosen, y).Some? ==> Fee(c, chosen, y).value in {0, c.standard, c.express}
  {
  }

  // ----- order totals

  datatype Line = Line(product: nat, price: int, quantity: int)

  /** The line total in unbounded integers. */
  ghost function ExactLine(): Line -> int {
    (l: Line) => l.price * l.quantity
  }

  ghost function ExactSubtotal(lines: seq<Line>): int {
    Sum(lines, ExactLine())
  }

  /** The running int64 sum of the source's loop. */
  function Subtotal(lines: seq<Line>): int {
    if lines == [] then 0
    else Wrap(Subtotal(lines[..|lines| - 1]) + Wrap(lines[|lines| - 1].price * lines[|lines| - 1].quantity))
  }

  lemma {:induction false} SubtotalIsExactModulo64Bits(lines: seq<Line>)
    ensures Subtotal(lines) == Wrap(ExactSubtotal(lines))
  {
    if lines != [] {
      var init, l := lines[..|lines| - 1], lines[|lines| - 1];
      SubtotalIsExactModulo64Bits(init);
      WrapAbsorbs(ExactSubtotal(init), Wrap(l.price * l.quantity));
      WrapAbsorbs(l.price * l.quantity, ExactSubtotal(init));
      assert ExactSubtotal(lines) == ExactSubtotal(init) + l.price * l.quantity;
    }
  }

  function Total(itemsSubtotal: int, discount: int, fee: int): int {
    Wrap(Wrap(itemsSubtotal - discount) + fee)
  }

  /** The persisted total is the true amount if and only if the true amount fits in an int64. */
  lemma TotalIsExactExactlyWhenItFits(lines: seq<Line>, discount: int, fee: int)
    ensures var exact := ExactSubtotal(lines) - discount + fee;
            Total(Subtotal(lines), discount, fee) == exact <==> FitsInt64(exact)
  {
    var s := ExactSubtotal(lines);
    SubtotalIsExactModulo64Bits(lines);
    WrapAbsorbs(s, -discount);
    WrapAbsorbs(s - discount, fee);
    WrapIsIdentityExactlyInRange(s - discount + fee);
  }

  method ComputeSubtotal(lines: seq<Line>) returns (itemsSubtotal: int)
    ensures itemsSubtotal == Subtotal(lines)
  {
    itemsSubtotal := 0;
    for i := 0 to |lines|
      invariant itemsSubtotal == Subtotal(lines[..i])
    {
      itemsSubtotal := Wrap(itemsSubtotal + Wrap(lines[i].price * lines[i].quantity));
      assert lines[..i + 1][..i] == lines[..i];
    }
    assert lines[..|lines|] == lines;
  }
}
