/** Booking prices: a percentage discount is rounded half-up to a cent per unit, and the discounted
    unit price is multiplied by the traveler count.
  */
module Pricing {

  /** Division rounded half-up, as `Math.round` does for non-negative quotients. */
  function RoundHalfUp(numerator: nat, denominator: nat): (r: nat)
    requires denominator > 0
    ensures 2 * denominator * r <= 2 * numerator + denominator < 2 * denominator * (r + 1)
  {
    var r := (2 * numerator + denominator) / (2 * denominator);
    DivisionBounds(2 * numerator + denominator, 2 * denominator);
    r
  }

  lemma DivisionBounds(a: nat, b: nat)
    requires b > 0
    ensures b * (a / b) <= a < b * (a / b + 1)
  {
    assert a == b * (a / b) + a % b;
  }

  datatype Price = Price(
    discountCents: nat,
    discountedUnitPriceCents: int,
    subtotalCents: nat,
    totalCents: int)

  /** The price of `quantity` seats at a unit price less a percentage given in hundredths of a percent. */
  function BookingPrice(unit: nat, bp: nat, quantity: nat): (p: Price) {
    var discount := RoundHalfUp(unit * bp, 10000);
    var discounted := unit - discount;
    Price(discount, discounted, unit * quantity, discounted * quantity)
  }

  /** A discount of at most 100% never exceeds the unit price. */
  lemma DiscountWithinUnit(unit: nat, bp: nat, quantity: nat)
    requires bp <= 10000
    ensures var p := BookingPrice(unit, bp, quantity);
      && 0 <= p.discountCents <= unit
      && 0 <= p.discountedUnitPriceCents
      && 0 <= p.totalCents <= p.subtotalCents
  {
    var p := BookingPrice(unit, bp, quantity);
    assert unit * bp <= unit * 10000 by { MulMonotone(bp, 10000, unit); }
    assert p.discountCents <= unit;
    MulMonotone(p.discountedUnitPriceCents, unit, quantity);
    MulMonotone(0, p.discountedUnitPriceCents, quantity);
  }

  lemma MulMonotone(a: int, b: int, k: nat)
    requires a <= b
    ensures a * k <= b * k
    ensures k * a <= k * b
  {
    assert (b - a) * k >= 0;
    assert b * k - a * k == (b - a) * k;
  }

  /** What the customer does not pay is exactly the discount on every seat. */
  lemma DiscountAccounted(unit: nat, bp: nat, quantity: nat)
    ensures var p := BookingPrice(unit, bp, quantity);
      p.totalCents + quantity * p.discountCents == p.subtotalCents
  {
    var p := BookingPrice(unit, bp, quantity);
    assert (unit - p.discountCents) * quantity == unit * quantity - p.discountCents * quantity;
  }

  /** Rounding per unit costs at most half a cent per seat against the exact price. */
  lemma RoundingError(unit: nat, bp: nat, quantity: nat)
    ensures var p := BookingPrice(unit, bp, quantity);
      var exact := quantity * (unit * (10000 - bp));
      -5000 * quantity <= 10000 * p.totalCents - exact <= 5000 * quantity
  {
    var p := BookingPrice(unit, bp, quantity);
    var error := unit * bp - 10000 * p.discountCents;
    assert -5000 <= error <= 5000;
    assert unit * (10000 - bp) == 10000 * unit - unit * bp;
    assert 10000 * p.discountedUnitPriceCents - unit * (10000 - bp) == error;
    calc {
      10000 * p.totalCents - quantity * (unit * (10000 - bp));
      (10000 * p.discountedUnitPriceCents) * quantity - (unit * (10000 - bp)) * quantity;
      (10000 * p.discountedUnitPriceCents - unit * (10000 - bp)) * quantity;
      error * quantity;
    }
    MulMonotone(-5000, error, quantity);
    MulMonotone(error, 5000, quantity);
  }

  /** A dearer tour or a larger percentage never lowers the discount. */
  lemma DiscountMonotone(unit: nat, unit': nat, bp: nat, bp': nat)
    requires unit <= unit' && bp <= bp'
    ensures BookingPrice(unit, bp, 1).discountCents <= BookingPrice(unit', bp', 1).discountCents
  {
    MulMonotone(unit, unit', bp);
    MulMonotone(bp, bp', unit');
    assert unit * bp <= unit' * bp';
  }

  /** With `x` the exact discount in hundredths of a percent of a cent and `d` its rounding. */
  lemma FreeUnit(unit: nat, x: nat, d: nat)
    requires d <= unit && 20000 * d <= 2 * x + 10000 < 20000 * (d + 1)
    ensures d == unit <==> 10000 * unit - x <= 5000
  {
  }

  lemma ZeroProduct(a: int, quantity: nat)
    requires a >= 0 && quantity > 0
    ensures a * quantity == 0 <==> a == 0
  {
    if a > 0 {
      MulMonotone(1, quantity, a);
    }
  }

  /** A booking skips payment exactly when the discounted unit price rounds down to nothing. */
  lemma FreeExactly(unit: nat, bp: nat, quantity: nat)
    requires quantity > 0 && bp <= 10000
    ensures BookingPrice(unit, bp, quantity).totalCents == 0 <==> unit * (10000 - bp) <= 5000
  {
    DiscountWithinUnit(unit, bp, quantity);
    var d := RoundHalfUp(unit * bp, 10000);
    assert unit * (10000 - bp) == 10000 * unit - unit * bp;
    ZeroProduct(unit - d, quantity);
    FreeUnit(unit, unit * bp, d);
  }
}
