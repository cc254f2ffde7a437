/**
 * The Currency entity of the exchange board and the values it derives from its
 * rate columns: which ranges are set, the to-AED ranges as shown, and the
 * from-AED ranges obtained by inverting the opposite to-AED range.
 *
 * Rates are stored as floats; here they are reals, and the `:.6f` formatting of
 * the displayed strings is replaced by the pair of numbers the string shows.
 */
module RateModel {
  import opened Wrappers

  /** A row of the `currency` table. Each rate column may be NULL on its own. */
  datatype Currency = Currency(
    id: nat,
    name: string,
    symbol: string,
    minBuyingRate: Option<real>,   // min_buying_rate_to_aed
    maxBuyingRate: Option<real>,   // max_buying_rate_to_aed
    minSellingRate: Option<real>,  // min_selling_rate_to_aed
    maxSellingRate: Option<real>,  // max_selling_rate_to_aed
    adminNotes: Option<string>)
  {
    /** Both buying bounds are present (neither column is NULL). */
    predicate HasBuyingRange(): (r: bool)
      ensures r <==> exists lo, hi :: minBuyingRate == Some(lo) && maxBuyingRate == Some(hi)
    {
      if minBuyingRate.Some? && maxBuyingRate.Some? then
        var lo, hi := minBuyingRate.value, maxBuyingRate.value;
        assert minBuyingRate == Some(lo) && maxBuyingRate == Some(hi);
        true
      else false
    }

    /** Both selling bounds are present (neither column is NULL). */
    predicate HasSellingRange(): (r: bool)
      ensures r <==> exists lo, hi :: minSellingRate == Some(lo) && maxSellingRate == Some(hi)
    {
      if minSellingRate.Some? && maxSellingRate.Some? then
        var lo, hi := minSellingRate.value, maxSellingRate.value;
        assert minSellingRate == Some(lo) && maxSellingRate == Some(hi);
        true
      else false
    }

    /** The currency is shown with rates when either displayed to-AED range is set. */
    function HasExchangeRates(): (r: bool)
      ensures r <==> BuyingRateDisplay().Range? || SellingRateDisplay().Range?
    {
      HasBuyingRange() || HasSellingRange()
    }

    /** `buying_rate_display`: "Not set", or the buying range, minimum first. */
    function BuyingRateDisplay(): (d: RateDisplay)
      ensures d.NotSet? <==> minBuyingRate.None? || maxBuyingRate.None?
      ensures d.Range? ==> Some(d.low) == minBuyingRate && Some(d.high) == maxBuyingRate
    {
      if HasBuyingRange() then Range(minBuyingRate.value, maxBuyingRate.value) else NotSet
    }

    /** `selling_rate_display`: "Not set", or the selling range, minimum first. */
    function SellingRateDisplay(): (d: RateDisplay)
      ensures d.NotSet? <==> minSellingRate.None? || maxSellingRate.None?
      ensures d.Range? ==> Some(d.low) == minSellingRate && Some(d.high) == maxSellingRate
    {
      if HasSellingRange() then Range(minSellingRate.value, maxSellingRate.value) else NotSet
    }

    /**
     * `buying_from_aed_display`: how much of this currency one AED buys when the
     * customer sells AED, i.e. the selling range inverted. A zero selling bound
     * raises ZeroDivisionError.
     */
    function BuyingFromAedDisplay(): (d: Result<RateDisplay, Fault>)
      ensures d == Ok(NotSet) <==> !HasSellingRange()
      ensures d.Err? <==> HasSellingRange() && (minSellingRate.value == 0.0 || maxSellingRate.value == 0.0)
      ensures d.Ok? && d.value.Range? ==>
                d.value.low * maxSellingRate.value == 1.0 && d.value.high * minSellingRate.value == 1.0
    {
      if HasSellingRange() then InvertRange(minSellingRate.value, maxSellingRate.value) else Ok(NotSet)
    }

    /**
     * `selling_from_aed_display`: the buying range inverted. A zero buying bound
     * raises ZeroDivisionError.
     */
    function SellingFromAedDisplay(): (d: Result<RateDisplay, Fault>)
      ensures d == Ok(NotSet) <==> !HasBuyingRange()
      ensures d.Err? <==> HasBuyingRange() && (minBuyingRate.value == 0.0 || maxBuyingRate.value == 0.0)
      ensures d.Ok? && d.value.Range? ==>
                d.value.low * maxBuyingRate.value == 1.0 && d.value.high * minBuyingRate.value == 1.0
    {
      if HasBuyingRange() then InvertRange(minBuyingRate.value, maxBuyingRate.value) else Ok(NotSet)
    }
  }

  /** What a display property shows: the literal "Not set", or "low - high". */
  datatype RateDisplay = NotSet | Range(low: real, high: real)

  /** The runtime fault a display property can raise. */
  datatype Fault = ZeroDivisionError

  /**
   * The range `1 / max - 1 / min`: the reciprocal of the upper bound comes first.
   * Python evaluates `1 / max` and then `1 / min`; either zero raises.
   */
  function InvertRange(min: real, max: real): (r: Result<RateDisplay, Fault>)
    ensures r.Err? <==> min == 0.0 || max == 0.0
    ensures r.Ok? ==> r.value.Range? && r.value.low * max == 1.0 && r.value.high * min == 1.0
  {
    if max == 0.0 || min == 0.0 then Err(ZeroDivisionError)
    else Ok(Range(1.0 / max, 1.0 / min))
  }

  /**
   * For a well-ordered range `min < max` without a zero bound, the inverted range is
   * ascending exactly when both bounds have the same sign; a range that straddles
   * zero is shown with its ends the wrong way round.
   */
  lemma InvertedRangeAscendingIffSameSign(min: real, max: real)
    requires min < max && min != 0.0 && max != 0.0
    ensures InvertRange(min, max).Ok?
    ensures InvertRange(min, max).value.low < InvertRange(min, max).value.high <==> min * max > 0.0
  {
    var lo, hi := 1.0 / max, 1.0 / min;
    if 0.0 < min {
      assert lo * max == 1.0 && hi * min == 1.0;
      assert hi - lo == (max - min) / (min * max);
    } else if max < 0.0 {
      assert hi - lo == (max - min) / (min * max);
    } else {
      assert lo > 0.0 && hi < 0.0;
    }
  }

  /** Inverting the shown from-AED range again gives back the stored to-AED range. */
  lemma InvertRangeRoundTrip(min: real, max: real)
    requires min != 0.0 && max != 0.0
    ensures var r := InvertRange(min, max).value;
            InvertRange(r.low, r.high) == Ok(Range(min, max))
  {
    var r := InvertRange(min, max).value;
    assert r.high * min == 1.0 && r.low * max == 1.0;
    assert 1.0 / r.low == max && 1.0 / r.high == min;
  }

  /**
   * The two from-AED displays invert the opposite to-AED range: the selling range
   * gives the buying-from-AED value and the buying range the selling-from-AED value.
   */
  lemma FromAedInvertsOppositeRange(c: Currency)
    requires c.HasBuyingRange() && c.HasSellingRange()
    requires c.minBuyingRate.value != 0.0 && c.maxBuyingRate.value != 0.0
    requires c.minSellingRate.value != 0.0 && c.maxSellingRate.value != 0.0
    ensures c.BuyingFromAedDisplay() == Ok(Range(1.0 / c.maxSellingRate.value, 1.0 / c.minSellingRate.value))
    ensures c.SellingFromAedDisplay() == Ok(Range(1.0 / c.maxBuyingRate.value, 1.0 / c.minBuyingRate.value))
    ensures InvertRange(c.BuyingFromAedDisplay().value.low, c.BuyingFromAedDisplay().value.high)
            == Ok(c.SellingRateDisplay())
  {
    InvertRangeRoundTrip(c.minSellingRate.value, c.maxSellingRate.value);
  }
}
