/** The discount rule both retailer parsers share: a percentage derived from
    the was-price and the saving, rounded the way Python's `round` rounds. */
module Discount {
  import opened Common

  /** Python's `round(x)` for a real `x`: the nearest integer, ties to even. */
  function RoundHalfEvenReal(x: real): (r: int)
    ensures -1.0 <= 2.0 * (x - r as real) <= 1.0
    ensures 2.0 * (x - r as real) == 1.0 || 2.0 * (x - r as real) == -1.0 ==> r % 2 == 0
  {
    var f := x.Floor;
    var frac := x - f as real;
    if frac < 0.5 then f
    else if frac > 0.5 then f + 1
    else if f % 2 == 0 then f
    else f + 1
  }

  /** Rounding a non-negative value never gives a negative integer. */
  lemma RoundNonNegative(x: real)
    requires x >= 0.0
    ensures RoundHalfEvenReal(x) >= 0
  {
  }

  /** The working `discount_pct`: 0 unless the was-price is positive and the
      saving (absent counts as 0) is positive, then the rounded percentage. */
  function DiscountPct(was: Option<real>, saving: Option<real>): (d: int)
    ensures d != 0 ==> was.Some? && was.value > 0.0 && saving.Some? && saving.value > 0.0
    ensures was.Some? && was.value > 0.0 && saving.Some? && saving.value > 0.0 ==>
      d >= 0 && -1.0 <= 2.0 * (saving.value / was.value * 100.0 - d as real) <= 1.0
    ensures was.Some? && was.value > 0.0 && saving.Some? && saving.value > 0.0 ==>
      d == RoundHalfEvenReal(saving.value / was.value * 100.0)
  {
    var save := saving.GetOr(0.0);
    if was.Some? && was.value > 0.0 && save > 0.0 then
      RoundNonNegative(save / was.value * 100.0);
      RoundHalfEvenReal(save / was.value * 100.0)
    else 0
  }

  /** The emitted `discount_pct`: present only when positive. */
  function EmittedDiscount(d: int): (r: Option<int>)
    ensures r.Some? <==> d > 0
    ensures r.Some? ==> r.value == d
  {
    if d > 0 then Some(d) else None
  }

  /** `original_price`: the was-price, present only when positive. */
  function OriginalPrice(was: Option<real>): (r: Option<real>)
    ensures r.Some? <==> was.Some? && was.value > 0.0
    ensures r.Some? ==> r == was
  {
    if was.Some? && was.value > 0.0 then was else None
  }

  /** A shown discount always comes with an original price. */
  lemma DiscountNeedsOriginal(was: Option<real>, saving: Option<real>)
    ensures EmittedDiscount(DiscountPct(was, saving)).Some? ==> OriginalPrice(was).Some?
  {
  }

  /** Half off is 50%; a saving of 48.5% still rounds to 48 and one of 47.5%
      rounds up to 48. */
  lemma DiscountExamples()
    ensures DiscountPct(Some(4.0), Some(2.0)) == 50
    ensures DiscountPct(Some(2.0), Some(0.97)) == 48
    ensures DiscountPct(Some(2.0), Some(0.95)) == 48
    ensures DiscountPct(Some(2.0), None) == 0
    ensures DiscountPct(None, Some(1.0)) == 0
  {
    assert 2.0 / 4.0 * 100.0 == 50.0;
    assert 0.97 / 2.0 * 100.0 == 48.5;
    assert 0.95 / 2.0 * 100.0 == 47.5;
  }
}
