/**
 * The discount percentage a product is stored with. Prices are decimals with twelve digits of
 * which two are after the point; the model keeps them as whole cents. The percentage is kept as
 * an exact rational number.
 */
module Pricing {

  /** Prices have at most twelve digits, two of them after the point: |cents| < 10^12. */
  const PriceLimit: int := 1_000_000_000_000

  predicate PriceValid(cents: int) {
    -PriceLimit < cents < PriceLimit
  }

  /** `(original - new) / original * 100`, defined only for a positive original price. It is not
      clamped: a new price above the original gives a negative discount. */
  function Discount(original: int, newPrice: int): (d: real)
    requires original > 0
    ensures d == 0.0 <==> newPrice == original
    ensures d < 0.0 <==> newPrice > original
    ensures d == 100.0 <==> newPrice == 0
    ensures d > 100.0 <==> newPrice < 0
  {
    var o, n := original as real, newPrice as real;
    var ratio := (o - n) / o;
    assert ratio * o == o - n;
    assert ratio == 1.0 <==> n == 0.0;
    assert ratio > 1.0 <==> n < 0.0;
    ratio * 100.0
  }

  /** The discount determines the new price: applying it to the original gives it back. */
  lemma DiscountRecoversNewPrice(original: int, newPrice: int)
    requires original > 0
    ensures newPrice as real == original as real * (1.0 - Discount(original, newPrice) / 100.0)
  {
    var o := original as real;
    calc {
      o * (1.0 - Discount(original, newPrice) / 100.0);
      o * (1.0 - (original - newPrice) as real / o);
      o - (original - newPrice) as real;
      newPrice as real;
    }
  }

  /** The discount depends only on the ratio of the two prices, so scaling both (dollars
      against cents) leaves it unchanged. */
  lemma DiscountScaleFree(original: int, newPrice: int, k: int)
    requires original > 0 && k > 0
    ensures Discount(k * original, k * newPrice) == Discount(original, newPrice)
  {
    var o, n, kr := original as real, newPrice as real, k as real;
    assert (k * original - k * newPrice) as real == kr * (o - n);
    assert (k * original) as real == kr * o;
    assert kr * (o - n) / (kr * o) == (o - n) / o;
  }

  /** An original price of 100.00 and a new price of 80.00 give a discount of exactly 20. */
  lemma DiscountExample()
    ensures Discount(10000, 8000) == 20.0
  {
  }
}
