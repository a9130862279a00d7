/**
 * The computations of the market-data fetcher in cmd/fetchmarket/main.go:
 * the yearly inflation rates kept from the observation series, their
 * average over past years, and the averages of the summary, including the
 * 60/40 stock/bond mix. The annual returns of each ticker are computed by
 * `MarketData.CalculateAnnualReturns`, the same function as in
 * market_data.go.
 *
 * `strconv.ParseFloat` is the parameter `parseFloat` and the current year
 * is the parameter `currentYear`; the HTTP requests, the JSON decoding and
 * the printing are not modelled.
 */
module FetchMarket {
  import opened Wrappers
  import opened Numeric
  import opened GoStrings
  import opened MarketData

  // ---------------------------------------------------------------------
  // Inflation observations
  // ---------------------------------------------------------------------

  /** One observation of the inflation series: a `YYYY-...` date and a value, `"."` when missing. */
  datatype Observation = Observation(date: string, value: string)

  /** A usable observation: its year and its rate. */
  datatype Reading = Reading(year: string, rate: real)

  /** An observation with a date of at least four characters, a value other than `"."` and a parsable value. */
  function ReadingOf(obs: Observation, parseFloat: string -> Option<real>): Option<Reading>
  {
    if |obs.date| < 4 || obs.value == "." then None
    else match parseFloat(obs.value)
      case None => None
      case Some(rate) => Some(Reading(obs.date[..4], rate))
  }

  /** Observation `i` is a usable reading for year `year`. */
  predicate ReadsYear(observations: seq<Observation>, parseFloat: string -> Option<real>, i: int, year: string)
    requires 0 <= i < |observations|
  {
    ReadingOf(observations[i], parseFloat).Some? && ReadingOf(observations[i], parseFloat).value.year == year
  }

  /** The year-to-rate map after the first `k` observations, in input order. */
  function InflationUpTo(observations: seq<Observation>, parseFloat: string -> Option<real>, k: nat): map<string, real>
    requires k <= |observations|
  {
    if k == 0 then map[]
    else
      var m := InflationUpTo(observations, parseFloat, k - 1);
      match ReadingOf(observations[k - 1], parseFloat)
      case None => m
      case Some(reading) => m[reading.year := reading.rate]
  }

  /** The observation loop of `fetchInflationData`. */
  method FilterInflation(observations: seq<Observation>, parseFloat: string -> Option<real>)
    returns (inflation: map<string, real>)
    ensures inflation == InflationUpTo(observations, parseFloat, |observations|)
  {
    inflation := map[];
    for i := 0 to |observations|
      invariant inflation == InflationUpTo(observations, parseFloat, i)
    {
      var obs := observations[i];
      if |obs.date| >= 4 && obs.value != "." {
        var year := obs.date[..4];
        var val := parseFloat(obs.value);
        if val.Some? {
          inflation := inflation[year := val.value];
        }
      }
    }
  }

  /** A year has a rate exactly when some usable observation falls in it. */
  lemma {:induction false} InflationYears(observations: seq<Observation>, parseFloat: string -> Option<real>,
                                          k: nat, year: string)
    requires k <= |observations|
    ensures year in InflationUpTo(observations, parseFloat, k) <==>
            exists i :: 0 <= i < k && ReadsYear(observations, parseFloat, i, year)
  {
    if k > 0 {
      InflationYears(observations, parseFloat, k - 1, year);
      if ReadsYear(observations, parseFloat, k - 1, year) {
        assert year in InflationUpTo(observations, parseFloat, k);
      } else if year in InflationUpTo(observations, parseFloat, k) {
        var i :| 0 <= i < k - 1 && ReadsYear(observations, parseFloat, i, year);
        assert 0 <= i < k;
      }
    }
  }

  /** A later usable observation of the same year overwrites an earlier one: the last one gives the rate. */
  lemma {:induction false} InflationLastWins(observations: seq<Observation>, parseFloat: string -> Option<real>,
                                             k: nat, i: nat, year: string)
    requires i < k <= |observations|
    requires ReadsYear(observations, parseFloat, i, year)
    requires forall j :: i < j < k ==> !ReadsYear(observations, parseFloat, j, year)
    ensures year in InflationUpTo(observations, parseFloat, k)
    ensures InflationUpTo(observations, parseFloat, k)[year] == ReadingOf(observations[i], parseFloat).value.rate
  {
    if i < k - 1 {
      InflationLastWins(observations, parseFloat, k - 1, i, year);
      assert !ReadsYear(observations, parseFloat, k - 1, year);
    }
  }

  // ---------------------------------------------------------------------
  // The inflation average
  // ---------------------------------------------------------------------

  /** The years strictly before the current one. */
  ghost function PastYears(m: map<string, real>, currentYear: int): set<string>
  {
    set y | y in m && YearNumber(y) < currentYear
  }

  /**
   * The inflation-average loop of `main`: the mean rate over the years
   * before the current one. With no such year the average keeps the zero
   * it starts with.
   */
  method InflationAverage(inflation: map<string, real>, currentYear: int) returns (average: real)
    ensures PastYears(inflation, currentYear) == {} ==> average == 0.0
    ensures average == MeanOver(inflation, PastYears(inflation, currentYear))
  {
    var sum := 0.0;
    var count := 0;
    ghost var counted: set<string> := {};
    var remaining := inflation.Keys;
    while remaining != {}
      invariant remaining <= inflation.Keys
      invariant forall y :: y in counted <==> y in PastYears(inflation, currentYear) && y !in remaining
      invariant count == |counted|
      invariant sum == SumOver(inflation, counted)
      decreases remaining
    {
      var year :| year in remaining;
      var rate := inflation[year];
      var yearInt := YearNumber(year);
      if yearInt < currentYear {
        SumOverRemove(inflation, counted + {year}, year);
        assert counted + {year} - {year} == counted;
        sum := sum + rate;
        count := count + 1;
        counted := counted + {year};
      }
      remaining := remaining - {year};
    }
    assert counted == PastYears(inflation, currentYear);
    average := 0.0;
    if count > 0 {
      average := sum / (count as real);
    }
  }

  /** The average lies within the range of the past years' rates. */
  lemma InflationAverageWithinRates(inflation: map<string, real>, currentYear: int, lo: real, hi: real)
    requires PastYears(inflation, currentYear) != {}
    requires forall y :: y in PastYears(inflation, currentYear) ==> lo <= inflation[y] <= hi
    ensures lo <= MeanOver(inflation, PastYears(inflation, currentYear)) <= hi
  {
    MeanOverBounds(inflation, PastYears(inflation, currentYear), lo, hi);
  }

  // ---------------------------------------------------------------------
  // The summary averages and the 60/40 mix
  // ---------------------------------------------------------------------

  /** The return of a portfolio of 60% total-market stock and 40% bonds. */
  function Mix6040(vtiReturn: real, bndReturn: real): real
  {
    vtiReturn * 0.6 + bndReturn * 0.4
  }

  /** The mix lies between its two parts. */
  lemma MixBetween(vtiReturn: real, bndReturn: real)
    ensures vtiReturn <= bndReturn ==> vtiReturn <= Mix6040(vtiReturn, bndReturn) <= bndReturn
    ensures bndReturn <= vtiReturn ==> bndReturn <= Mix6040(vtiReturn, bndReturn) <= vtiReturn
  {
  }

  /** The mix column of the summary table, a row per year (a missing return reads as 0). */
  ghost function MixByYear(vti: map<string, real>, bnd: map<string, real>, years: set<string>): map<string, real>
  {
    map y | y in years :: Mix6040(Lookup(vti, y), Lookup(bnd, y))
  }

  /** The average row of the summary. */
  datatype Averages = Averages(voo: real, qqq: real, vti: real, bnd: real, mix: real)

  /** Weighting the two means is the mean of the weighted values. */
  lemma MixOfMeans(vtiSum: real, bndSum: real, count: real)
    requires count > 0.0
    ensures (vtiSum / count) * 0.6 + (bndSum / count) * 0.4 == (0.6 * vtiSum + 0.4 * bndSum) / count
  {
  }

  /** The mean of the yearly mixes is the mix of the VTI and BND means. */
  lemma MeanOfMixes(vti: map<string, real>, bnd: map<string, real>, keys: set<string>, years: set<string>)
    requires years != {} && years <= keys
    ensures MeanOver(MixByYear(vti, bnd, keys), years) ==
            (SumOver(vti, years) / (|years| as real)) * 0.6 + (SumOver(bnd, years) / (|years| as real)) * 0.4
  {
    var mix := MixByYear(vti, bnd, keys);
    forall k | k in years
      ensures Lookup(mix, k) == 0.6 * Lookup(vti, k) + 0.4 * Lookup(bnd, k)
    {
      assert k in mix;
    }
    SumOverSixtyForty(vti, bnd, mix, years);
    var n := |years| as real;
    assert MeanOver(mix, years) == SumOver(mix, years) / n;
    MixOfMeans(SumOver(vti, years), SumOver(bnd, years), n);
  }

  /** The sums of the four tickers' returns over the years of the VOO map before the current one, and their number. */
  method SummarySums(voo: map<string, real>, qqq: map<string, real>, vti: map<string, real>,
                     bnd: map<string, real>, currentYear: int)
    returns (vooSum: real, qqqSum: real, vtiSum: real, bndSum: real, count: nat)
    ensures count == |PastYears(voo, currentYear)|
    ensures vooSum == SumOver(voo, PastYears(voo, currentYear)) && qqqSum == SumOver(qqq, PastYears(voo, currentYear))
    ensures vtiSum == SumOver(vti, PastYears(voo, currentYear)) && bndSum == SumOver(bnd, PastYears(voo, currentYear))
  {
    vooSum, qqqSum, vtiSum, bndSum := 0.0, 0.0, 0.0, 0.0;
    count := 0;
    ghost var counted: set<string> := {};
    var remaining := voo.Keys;
    while remaining != {}
      invariant remaining <= voo.Keys
      invariant forall y :: y in counted <==> y in PastYears(voo, currentYear) && y !in remaining
      invariant count == |counted|
      invariant vooSum == SumOver(voo, counted) && qqqSum == SumOver(qqq, counted)
      invariant vtiSum == SumOver(vti, counted) && bndSum == SumOver(bnd, counted)
      decreases remaining
    {
      var year :| year in remaining;
      var vooRet := voo[year];
      var qqqRet := Lookup(qqq, year);
      var vtiRet := Lookup(vti, year);
      var bndRet := Lookup(bnd, year);
      var yearInt := YearNumber(year);
      if yearInt < currentYear {
        var next := counted + {year};
        assert next - {year} == counted;
        SumOverRemove(voo, next, year);
        SumOverRemove(qqq, next, year);
        SumOverRemove(vti, next, year);
        SumOverRemove(bnd, next, year);
        vooSum := vooSum + vooRet;
        qqqSum := qqqSum + qqqRet;
        vtiSum := vtiSum + vtiRet;
        bndSum := bndSum + bndRet;
        count := count + 1;
        counted := next;
      }
      remaining := remaining - {year};
    }
    assert counted == PastYears(voo, currentYear);
  }

  /**
   * The averages of `printSummary`: over the years of the VOO map before
   * the current one, the mean return of each ticker and the mix of the VTI
   * and BND means, which is the mean of the yearly mixes. `None` when there
   * is no such year (no average row).
   */
  method SummaryAverages(voo: map<string, real>, qqq: map<string, real>, vti: map<string, real>,
                         bnd: map<string, real>, currentYear: int)
    returns (r: Option<Averages>)
    ensures r.None? <==> PastYears(voo, currentYear) == {}
    ensures r.Some? ==> var years := PastYears(voo, currentYear);
      && r.value.voo == MeanOver(voo, years)
      && r.value.qqq == MeanOver(qqq, years)
      && r.value.vti == MeanOver(vti, years)
      && r.value.bnd == MeanOver(bnd, years)
      && r.value.mix == MeanOver(MixByYear(vti, bnd, voo.Keys), years)
  {
    var vooSum, qqqSum, vtiSum, bndSum, count := SummarySums(voo, qqq, vti, bnd, currentYear);
    if count == 0 {
      return None;
    }
    var n := count as real;
    var avgMix := (vtiSum / n) * 0.6 + (bndSum / n) * 0.4;
    MeanOfMixes(vti, bnd, voo.Keys, PastYears(voo, currentYear));
    r := Some(Averages(vooSum / n, qqqSum / n, vtiSum / n, bndSum / n, avgMix));
  }
}
