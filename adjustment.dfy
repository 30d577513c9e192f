/**
 * The part of a GTK scrollbar adjustment the views rely on: a value kept
 * between `lower` and `upper - page_size` by `set_value`, which clamps.
 * The scrolled windows of the reader always start at 0.
 */
module Adjustments {

  datatype Adjustment = Adjustment(value: real, lower: real, upper: real, pageSize: real) {

    /** The largest value `set_value` accepts (the range is empty when the page is taller than the content). */
    function MaxValue(): real {
      if upper - pageSize > lower then upper - pageSize else lower
    }

    predicate Valid() {
      lower == 0.0 && pageSize >= 0.0 && lower <= value <= MaxValue()
    }

    /** `set_value(v)`: the value is clamped into the scrollable range. */
    function SetValue(v: real): (a: Adjustment)
      ensures a.lower == lower && a.upper == upper && a.pageSize == pageSize
      ensures lower <= a.value <= MaxValue()
      ensures lower <= v <= MaxValue() ==> a.value == v
      ensures v < lower ==> a.value == lower
      ensures v > MaxValue() ==> a.value == MaxValue()
    {
      this.(value := if v < lower then lower else if v > MaxValue() then MaxValue() else v)
    }

    /** The view has been scrolled to the end of the content. */
    predicate AtEnd() {
      value >= upper - pageSize
    }

    predicate AtStart() {
      value == lower
    }
  }

  /**
   * The scroll fraction the views compare against page positions:
   * `value / (upper - page_size)`, or 0 at the top.
   */
  function ScrollFraction(a: Adjustment): (f: real)
    requires a.Valid()
    ensures 0.0 <= f <= 1.0
    ensures f == 0.0 <==> a.value == 0.0
    ensures a.value > 0.0 ==> f * (a.upper - a.pageSize) == a.value
  {
    if a.value > 0.0 then
      var r := a.upper - a.pageSize;
      assert 0.0 < a.value <= r;
      assert a.value / r * r == a.value;
      QuotientAtMostOne(a.value, r);
      a.value / r
    else 0.0
  }

  lemma QuotientAtMostOne(x: real, r: real)
    requires 0.0 < x <= r
    ensures x / r <= 1.0
  {
    assert x / r * r == x;
    assert (x / r - 1.0) * r == x - r;
  }

  /** Scrolling to a fraction of the range and reading the fraction back gives it again. */
  lemma ScrollFractionRoundTrip(a: Adjustment, f: real)
    requires a.Valid() && 0.0 <= f <= 1.0 && a.upper - a.pageSize > 0.0
    ensures a.SetValue((a.upper - a.pageSize) * f).Valid()
    ensures ScrollFraction(a.SetValue((a.upper - a.pageSize) * f)) == f
  {
    var r := a.upper - a.pageSize;
    var v := r * f;
    assert 0.0 <= v <= r;
    assert a.lower <= v <= a.MaxValue();
    var b := a.SetValue(v);
    assert b.value == v;
  }
}
