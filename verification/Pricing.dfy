// Money in whole cents and percentages as exact reals. Math.round(x) is floor(x + 1/2).
module Pricing {
  import opened Wrappers

  type Percent = p: real | 0.0 <= p <= 100.0

  function RoundHalfUp(x: real): int {
    (x + 0.5).Floor
  }

  // A fraction of an amount, rounded to cents.
  function Portion(cents: int, fraction: real): int {
    RoundHalfUp(cents as real * fraction)
  }

  // applyPctOff: the price with a percentage taken off, rounded to cents.
  function ApplyPctOff(cents: int, pct: Percent): int {
    Portion(cents, 1.0 - pct / 100.0)
  }

  // The two amounts of computePriceWithDiscount.
  function DiscountAmount(cents: int, discount: Option<Percent>): int {
    if discount.Some? then Portion(cents, discount.value / 100.0) else 0
  }

  function FinalPrice(cents: int, discount: Option<Percent>): int {
    RoundHalfUp((cents - DiscountAmount(cents, discount)) as real)
  }

  function AfterOwn(base: int, own: Percent): int {
    if own > 0.0 then ApplyPctOff(base, own) else base
  }

  // A package total after the package's own percentage and then a PACKAGE-scope discount.
  function StackedTotal(base: int, own: Percent, discount: Option<Percent>): int {
    if discount.Some? then FinalPrice(AfterOwn(base, own), discount) else AfterOwn(base, own)
  }

  // applyPackageTotalDiscount: the stored total is rewritten only when it moved by more than 0.0001
  // of a currency unit. Whatever the guard decides, the computed total is what ends up stored.
  method ApplyPackageTotalDiscount(base: int, own: Percent, discount: Option<Percent>) returns (stored: int)
    ensures stored == StackedTotal(base, own, discount)
  {
    stored := base;
    var finalTotal := base;
    if own > 0.0 {
      finalTotal := ApplyPctOff(finalTotal, own);
    }
    if discount.Some? {
      finalTotal := FinalPrice(finalTotal, discount);
    }
    var moved := if finalTotal >= base then finalTotal - base else base - finalTotal;
    if moved as real / 100.0 > 0.0001 {
      stored := RoundHalfUp(finalTotal as real);
    }
  }

  // ----- rounding ----------------------------------------------------------------------

  lemma RoundingIsWithinHalf(x: real)
    ensures -0.5 <= RoundHalfUp(x) as real - x <= 0.5
  {
  }

  // Rounding is determined by the half-open interval it falls in.
  lemma RoundsTo(x: real, n: int)
    requires n as real - 0.5 <= x < n as real + 0.5
    ensures RoundHalfUp(x) == n
  {
    var r := RoundHalfUp(x);
    assert r as real <= x + 0.5 < r as real + 1.0;
  }

  lemma RoundingIsMonotone(x: real, y: real)
    requires x <= y
    ensures RoundHalfUp(x) <= RoundHalfUp(y)
  {
  }

  lemma ProductIsNonNegative(a: real, b: real)
    requires 0.0 <= a && 0.0 <= b
    ensures 0.0 <= a * b
  {
  }

  lemma ScalingIsMonotone(x: int, y: int, q: real)
    requires x <= y && 0.0 <= q
    ensures x as real * q <= y as real * q
    ensures y as real * q - x as real * q == (y - x) as real * q
  {
    ProductIsNonNegative((y - x) as real, q);
    assert (y - x) as real == y as real - x as real;
  }

  // A whole number of cents survives the final rounding, so amount plus discount is the subtotal.
  lemma PriceSplitsExactly(cents: int, discount: Option<Percent>)
    ensures FinalPrice(cents, discount) + DiscountAmount(cents, discount) == cents
  {
    RoundsTo((cents - DiscountAmount(cents, discount)) as real, cents - DiscountAmount(cents, discount));
  }

  lemma PortionIsBounded(cents: nat, q: real)
    requires 0.0 <= q <= 1.0
    ensures 0.0 <= cents as real * q <= cents as real
    ensures 0 <= Portion(cents, q) <= cents
  {
    ProductIsNonNegative(cents as real, q);
    ProductIsNonNegative(cents as real, 1.0 - q);
    assert cents as real - cents as real * q == cents as real * (1.0 - q);
    RoundingIsMonotone(0.0, cents as real * q);
    RoundingIsMonotone(cents as real * q, cents as real);
    RoundsTo(0.0, 0);
    RoundsTo(cents as real, cents);
  }

  lemma PriceIsBounded(cents: nat, discount: Option<Percent>)
    ensures 0 <= DiscountAmount(cents, discount) <= cents
    ensures 0 <= FinalPrice(cents, discount) <= cents
  {
    PriceSplitsExactly(cents, discount);
    if discount.Some? {
      PortionIsBounded(cents, discount.value / 100.0);
    }
  }

  // One more cent of price adds at most one cent to a portion of it.
  lemma PortionGrowsSlowly(x: int, y: int, q: real)
    requires x <= y && 0.0 <= q <= 1.0
    ensures 0 <= Portion(y, q) - Portion(x, q) <= y - x
  {
    var a, b, gap := x as real * q, y as real * q, (y - x) as real * q;
    assert 0.0 <= gap <= (y - x) as real by {
      PortionIsBounded(y - x, q);
    }
    assert b - a == gap by {
      ScalingIsMonotone(x, y, q);
    }
    RoundingGrowsSlowly(a, b, y - x);
  }

  lemma RoundingGrowsSlowly(x: real, y: real, n: nat)
    requires x <= y <= x + n as real
    ensures RoundHalfUp(x) <= RoundHalfUp(y) <= RoundHalfUp(x) + n
  {
  }

  // ----- the stacked total --------------------------------------------------------------

  function ExactTotal(base: int, own: Percent, discount: Option<Percent>): real {
    var afterOwn := base as real * (1.0 - own / 100.0);
    if discount.Some? then afterOwn * (1.0 - discount.value / 100.0) else afterOwn
  }

  lemma StackedTotalIsBounded(base: nat, own: Percent, discount: Option<Percent>)
    ensures 0 <= StackedTotal(base, own, discount) <= base
  {
    PortionIsBounded(base, 1.0 - own / 100.0);
    var x := AfterOwn(base, own);
    if discount.Some? {
      PortionIsBounded(x, discount.value / 100.0);
      PriceSplitsExactly(x, discount);
    }
  }

  lemma StackedTotalIsMonotone(base: int, more: int, own: Percent, discount: Option<Percent>)
    requires base <= more
    ensures StackedTotal(base, own, discount) <= StackedTotal(more, own, discount)
  {
    PortionGrowsSlowly(base, more, 1.0 - own / 100.0);
    var x, y := AfterOwn(base, own), AfterOwn(more, own);
    if discount.Some? {
      PortionGrowsSlowly(x, y, discount.value / 100.0);
      PriceSplitsExactly(x, discount);
      PriceSplitsExactly(y, discount);
    }
  }

  // Two roundings, but never more than one cent away from the exact doubly discounted price.
  lemma StackedTotalIsAccurate(base: int, own: Percent, discount: Option<Percent>)
    ensures -1.0 <= StackedTotal(base, own, discount) as real - ExactTotal(base, own, discount) <= 1.0
  {
    var exact := base as real * (1.0 - own / 100.0);
    var x := AfterOwn(base, own);
    assert -0.5 <= x as real - exact <= 0.5 by {
      RoundingIsWithinHalf(exact);
    }
    if discount.Some? {
      PriceSplitsExactly(x, discount);
      SecondRounding(x, exact, discount.value / 100.0);
    }
  }

  lemma SecondRounding(x: int, exact: real, q: real)
    requires -0.5 <= x as real - exact <= 0.5 && 0.0 <= q <= 1.0
    ensures -1.0 <= (x - Portion(x, q)) as real - exact * (1.0 - q) <= 1.0
  {
    var error := x as real - exact;
    RoundingIsWithinHalf(x as real * q);
    ProductIsNonNegative(0.5 - error, 1.0 - q);
    ProductIsNonNegative(0.5 + error, 1.0 - q);
    assert x as real - x as real * q - exact * (1.0 - q) == error * (1.0 - q);
    assert -0.5 * (1.0 - q) <= error * (1.0 - q) <= 0.5 * (1.0 - q);
  }
}
