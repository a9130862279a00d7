/**
 * Property appreciation and the sale of the property, as computed by
 * `calculateSaleProceeds` and `calculateNetWorth` in main.go: a list of
 * annual rates in percent, one per year of ownership, whose last entry
 * applies to every later year; a fractional power for a final partial year;
 * and the costs and tax deducted from the sale price.
 *
 * `math.Pow` with a fractional exponent is not modelled: it is the
 * parameter `fracPow`.
 */
module Appreciation {
  import opened Numeric

  /** The rate for year `year` (0-based): its own entry, or the last one once the list runs out. */
  function RateForYear(rates: seq<real>, year: nat): (r: real)
    requires |rates| >= 1
    ensures year < |rates| ==> r == rates[year]
    ensures year >= |rates| ==> r == rates[|rates| - 1]
  {
    if year >= |rates| then rates[|rates| - 1] else rates[year]
  }

  /** The growth factor of year `year`: `1 + rate/100`. */
  function YearFactor(rates: seq<real>, year: nat): real
    requires |rates| >= 1
  {
    1.0 + RateForYear(rates, year) / 100.0
  }

  /** `price` after `years` whole years, multiplied in year by year as the source's loop does. */
  function Compound(price: real, rates: seq<real>, years: nat): real
    requires |rates| >= 1
  {
    if years == 0 then price else Compound(price, rates, years - 1) * YearFactor(rates, years - 1)
  }

  /** The product of the first `years` yearly factors. */
  function Growth(rates: seq<real>, years: nat): real
    requires |rates| >= 1
  {
    if years == 0 then 1.0 else Growth(rates, years - 1) * YearFactor(rates, years - 1)
  }

  /** The asset value after `months`: whole years compounded, then the partial-year power of the next year's rate. */
  function AssetValue(price: real, rates: seq<real>, months: nat, fracPow: (real, real) -> real): real
    requires |rates| >= 1
  {
    var years := months / 12;
    var value := Compound(price, rates, years);
    if months % 12 > 0 then value * fracPow(YearFactor(rates, years), (months % 12) as real / 12.0)
    else value
  }

  lemma MulAssoc(a: real, b: real, c: real)
    ensures (a * b) * c == a * (b * c)
  {
  }

  /** Compounding year by year is the price times the product of the yearly factors. */
  lemma {:induction false} CompoundIsProduct(price: real, rates: seq<real>, years: nat)
    requires |rates| >= 1
    ensures Compound(price, rates, years) == price * Growth(rates, years)
  {
    if years > 0 {
      CompoundIsProduct(price, rates, years - 1);
      MulAssoc(price, Growth(rates, years - 1), YearFactor(rates, years - 1));
    }
  }

  /** With a single rate `r`, `years` years multiply the price by `(1 + r/100)^years`. */
  lemma {:induction false} CompoundSingleRate(price: real, r: real, years: nat)
    ensures Compound(price, [r], years) == price * Pow(1.0 + r / 100.0, years)
  {
    if years > 0 {
      CompoundSingleRate(price, r, years - 1);
      var g := 1.0 + r / 100.0;
      assert YearFactor([r], years - 1) == g;
      MulAssoc(price, Pow(g, years - 1), g);
    }
  }

  /** Twelve months at a single rate `r` is one whole year: the price times `1 + r/100`. */
  lemma OneYearSingleRate(price: real, r: real, fracPow: (real, real) -> real)
    ensures AssetValue(price, [r], 12, fracPow) == price * (1.0 + r / 100.0)
  {
    CompoundSingleRate(price, r, 1);
  }

  /** Over a whole number of years the value is the price times the product of the yearly factors. */
  lemma WholeYearsValue(price: real, rates: seq<real>, years: nat, fracPow: (real, real) -> real)
    requires |rates| >= 1
    ensures AssetValue(price, rates, 12 * years, fracPow) == price * Growth(rates, years)
  {
    assert (12 * years) / 12 == years && (12 * years) % 12 == 0;
    CompoundIsProduct(price, rates, years);
  }

  /**
   * The compounding loop shared by `calculateSaleProceeds` and
   * `calculateNetWorth`: each whole year multiplies by that year's factor,
   * the rate index clamped to the last entry, then a partial year applies
   * the fractional power of the next year's factor.
   */
  method Appreciate(price: real, rates: seq<real>, months: nat, fracPow: (real, real) -> real)
    returns (value: real)
    requires |rates| >= 1
    ensures value == AssetValue(price, rates, months, fracPow)
  {
    value := price;
    var years, remainingMonths := months / 12, months % 12;
    var year := 0;
    while year < years
      invariant 0 <= year <= years
      invariant value == Compound(price, rates, year)
    {
      var rateIndex := year;
      if rateIndex >= |rates| {
        rateIndex := |rates| - 1;
      }
      value := value * (1.0 + rates[rateIndex] / 100.0);
      year := year + 1;
    }
    if remainingMonths > 0 {
      var rateIndex := years;
      if rateIndex >= |rates| {
        rateIndex := |rates| - 1;
      }
      var partialYearFactor := fracPow(1.0 + rates[rateIndex] / 100.0, remainingMonths as real / 12.0);
      value := value * partialYearFactor;
    }
  }

  /** Once the list runs out, every further year grows by the last rate. */
  lemma {:induction false} LastRatePersists(price: real, rates: seq<real>, extra: nat)
    requires |rates| >= 1
    ensures Compound(price, rates, |rates| + extra)
         == Compound(price, rates, |rates|) * Pow(1.0 + rates[|rates| - 1] / 100.0, extra)
  {
    if extra > 0 {
      var n := |rates|;
      LastRatePersists(price, rates, extra - 1);
      var g := 1.0 + rates[n - 1] / 100.0;
      var base, before := Compound(price, rates, n), Pow(g, extra - 1);
      assert YearFactor(rates, n + extra - 1) == g;
      GrowOnce(base, before, g);
    }
  }

  lemma GrowOnce(base: real, before: real, g: real)
    ensures (base * before) * g == base * (g * before)
  {
  }

  lemma MulAtLeast(x: real, g: real)
    requires x >= 0.0 && g >= 1.0
    ensures x * g >= x
  {
  }

  /** With no negative rate, the value of a non-negative price never falls below it. */
  lemma {:induction false} CompoundNeverBelowPrice(price: real, rates: seq<real>, years: nat)
    requires |rates| >= 1 && price >= 0.0
    requires forall i :: 0 <= i < |rates| ==> rates[i] >= 0.0
    ensures Compound(price, rates, years) >= price
  {
    if years > 0 {
      CompoundNeverBelowPrice(price, rates, years - 1);
      MulAtLeast(Compound(price, rates, years - 1), YearFactor(rates, years - 1));
    }
  }

  /** Go's `math.Max(0, x)` on the values it is used with here. */
  function MaxZero(x: real): (r: real)
    ensures r >= 0.0 && r >= x && (r == 0.0 || r == x)
  {
    if x > 0.0 then x else 0.0
  }

  /**
   * The capital-gains tax: the percentage `capitalGainsTax` of the gain
   * above the tax-free limit. A gain within the limit owes nothing, and a
   * non-negative rate never yields a negative tax.
   */
  function TaxOnGains(capitalGains: real, taxFreeLimit: real, capitalGainsTax: real): (tax: real)
    ensures capitalGains <= taxFreeLimit ==> tax == 0.0
    ensures capitalGainsTax >= 0.0 ==> tax >= 0.0
    ensures capitalGains > taxFreeLimit ==> tax == (capitalGains - taxFreeLimit) * (capitalGainsTax / 100.0)
  {
    MaxZero(capitalGains - taxFreeLimit) * (capitalGainsTax / 100.0)
  }

  /** One dollar of gain above the limit is taxed at the rate; one dollar below it is not taxed. */
  lemma TaxAroundLimit(taxFreeLimit: real, capitalGainsTax: real)
    ensures TaxOnGains(taxFreeLimit + 1.0, taxFreeLimit, capitalGainsTax) == capitalGainsTax / 100.0
    ensures TaxOnGains(taxFreeLimit - 1.0, taxFreeLimit, capitalGainsTax) == 0.0
  {
  }
}
