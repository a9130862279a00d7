/**
 * The market-data cache of market_data.go: annual returns computed from
 * daily closing prices, the 10-year averages the projection offers as
 * defaults, and the decision to refresh the cache and the merge of freshly
 * fetched returns into it.
 *
 * `strconv.ParseFloat` is the parameter `parseFloat`; `time.Now()` is the
 * parameters `now` (seconds) and `currentYear`; `time.Parse` of the cache's
 * date is the parameter `parseDay` (the day's start, in seconds).
 */
module MarketData {
  import opened Wrappers
  import opened Numeric
  import opened GoStrings

  // ---------------------------------------------------------------------
  // Annual returns from daily prices
  // ---------------------------------------------------------------------

  /** A usable price record: its year (the first four characters of the date) and its closing price. */
  datatype Quote = Quote(year: string, price: real)

  /** A record with at least two fields, a date of at least four characters and a parsable price. */
  function QuoteOf(record: seq<string>, parseFloat: string -> Option<real>): Option<Quote>
  {
    if |record| < 2 then None
    else if |record[0]| < 4 then None
    else match parseFloat(record[1])
      case None => None
      case Some(price) => Some(Quote(record[0][..4], price))
  }

  /** Record `i` is a usable price of year `year`. */
  predicate QuotesYear(rows: seq<seq<string>>, parseFloat: string -> Option<real>, i: int, year: string)
    requires 0 <= i < |rows|
  {
    QuoteOf(rows[i], parseFloat).Some? && QuoteOf(rows[i], parseFloat).value.year == year
  }

  /** The first and the last price seen for a year. */
  datatype YearPrices = YearPrices(firstPrice: real, lastPrice: real)

  /** The prices of each year over the first `k` rows, in input order. */
  function PricesUpTo(rows: seq<seq<string>>, parseFloat: string -> Option<real>, k: nat): map<string, YearPrices>
    requires k <= |rows|
  {
    if k == 0 then map[]
    else
      var prices := PricesUpTo(rows, parseFloat, k - 1);
      match QuoteOf(rows[k - 1], parseFloat)
      case None => prices
      case Some(q) =>
        if q.year in prices then prices[q.year := YearPrices(prices[q.year].firstPrice, q.price)]
        else prices[q.year := YearPrices(q.price, q.price)]
  }

  /** A year with no usable record has no prices. */
  lemma {:induction false} NoQuoteNoYear(rows: seq<seq<string>>, parseFloat: string -> Option<real>, k: nat, year: string)
    requires k <= |rows|
    requires forall i :: 0 <= i < k ==> !QuotesYear(rows, parseFloat, i, year)
    ensures year !in PricesUpTo(rows, parseFloat, k)
  {
    if k > 0 {
      NoQuoteNoYear(rows, parseFloat, k - 1, year);
      assert !QuotesYear(rows, parseFloat, k - 1, year);
    }
  }

  /** The first price of a year is the price of that year's first usable record. */
  lemma {:induction false} FirstPriceIsFirstQuote(rows: seq<seq<string>>, parseFloat: string -> Option<real>,
                                                  k: nat, year: string, i: nat)
    requires i < k <= |rows|
    requires QuotesYear(rows, parseFloat, i, year)
    requires forall j :: 0 <= j < i ==> !QuotesYear(rows, parseFloat, j, year)
    ensures year in PricesUpTo(rows, parseFloat, k)
    ensures PricesUpTo(rows, parseFloat, k)[year].firstPrice == QuoteOf(rows[i], parseFloat).value.price
  {
    if k - 1 == i {
      NoQuoteNoYear(rows, parseFloat, i, year);
    } else {
      FirstPriceIsFirstQuote(rows, parseFloat, k - 1, year, i);
    }
  }

  /** The last price of a year is the price of that year's last usable record. */
  lemma {:induction false} LastPriceIsLastQuote(rows: seq<seq<string>>, parseFloat: string -> Option<real>,
                                                k: nat, year: string, i: nat)
    requires i < k <= |rows|
    requires QuotesYear(rows, parseFloat, i, year)
    requires forall j :: i < j < k ==> !QuotesYear(rows, parseFloat, j, year)
    ensures year in PricesUpTo(rows, parseFloat, k)
    ensures PricesUpTo(rows, parseFloat, k)[year].lastPrice == QuoteOf(rows[i], parseFloat).value.price
  {
    if k - 1 != i {
      LastPriceIsLastQuote(rows, parseFloat, k - 1, year, i);
      assert !QuotesYear(rows, parseFloat, k - 1, year);
    }
  }

  /** The annual return in percent: `(last - first) / first * 100`. */
  function AnnualReturn(p: YearPrices): real
    requires p.firstPrice > 0.0
  {
    ((p.lastPrice - p.firstPrice) / p.firstPrice) * 100.0
  }

  /** Growing the first price by the return gives the last price; the sign of the return is that of the change. */
  lemma AnnualReturnGrowth(p: YearPrices)
    requires p.firstPrice > 0.0
    ensures p.firstPrice * (1.0 + AnnualReturn(p) / 100.0) == p.lastPrice
    ensures AnnualReturn(p) > 0.0 <==> p.lastPrice > p.firstPrice
    ensures AnnualReturn(p) == 0.0 <==> p.lastPrice == p.firstPrice
  {
    var d := p.lastPrice - p.firstPrice;
    assert AnnualReturn(p) / 100.0 == d / p.firstPrice;
    assert p.firstPrice * (d / p.firstPrice) == d;
  }

  /** `yearReturns` holds exactly the years whose first price is positive, each with its annual return. */
  ghost predicate ReturnsOf(prices: map<string, YearPrices>, yearReturns: map<string, real>)
  {
    && (forall y :: y in yearReturns <==> y in prices && prices[y].firstPrice > 0.0)
    && (forall y :: y in yearReturns ==> y in prices && prices[y].firstPrice > 0.0 && yearReturns[y] == AnnualReturn(prices[y]))
  }

  datatype ReturnsError = InsufficientData

  /** The year map of `calculateAnnualReturns`: the header row is skipped. */
  function YearPricesOf(records: seq<seq<string>>, parseFloat: string -> Option<real>): map<string, YearPrices>
    requires |records| >= 1
  {
    PricesUpTo(records[1..], parseFloat, |records| - 1)
  }

  /**
   * `calculateAnnualReturns` (in market_data.go and, identically, in
   * cmd/fetchmarket/main.go): fewer than two records is an error; otherwise
   * the header is skipped, unusable records are skipped, and each year with
   * a positive first price gets its return from its first and last price.
   */
  method CalculateAnnualReturns(records: seq<seq<string>>, parseFloat: string -> Option<real>)
    returns (r: Result<map<string, real>, ReturnsError>)
    ensures |records| < 2 <==> r.Err?
    ensures r.Err? ==> r.error == InsufficientData
    ensures r.Ok? ==> ReturnsOf(YearPricesOf(records, parseFloat), r.value)
  {
    if |records| < 2 {
      return Err(InsufficientData);
    }
    var rows := records[1..];
    var yearPrices: map<string, YearPrices> := map[];
    var i := 0;
    while i < |rows|
      invariant 0 <= i <= |rows|
      invariant yearPrices == PricesUpTo(rows, parseFloat, i)
    {
      var record := rows[i];
      i := i + 1;
      if |record| < 2 {
        continue;
      }
      var date := record[0];
      if |date| < 4 {
        continue;
      }
      var year := date[..4];
      var adjClose := parseFloat(record[1]);
      if adjClose.None? {
        continue;
      }
      if year !in yearPrices {
        yearPrices := yearPrices[year := YearPrices(adjClose.value, adjClose.value)];
      }
      yearPrices := yearPrices[year := yearPrices[year].(lastPrice := adjClose.value)];
    }
    var yearReturns := AnnualReturns(yearPrices);
    return Ok(yearReturns);
  }

  /** The second loop of `calculateAnnualReturns`, over the years in any order. */
  method AnnualReturns(yearPrices: map<string, YearPrices>) returns (yearReturns: map<string, real>)
    ensures ReturnsOf(yearPrices, yearReturns)
  {
    yearReturns := map[];
    var remaining := yearPrices.Keys;
    while remaining != {}
      invariant remaining <= yearPrices.Keys
      invariant forall y :: y in yearReturns <==> y in yearPrices && y !in remaining && yearPrices[y].firstPrice > 0.0
      invariant forall y :: y in yearReturns ==> y in yearPrices && yearPrices[y].firstPrice > 0.0 && yearReturns[y] == AnnualReturn(yearPrices[y])
      decreases remaining
    {
      var year :| year in remaining;
      var data := yearPrices[year];
      if data.firstPrice > 0.0 {
        var returnPct := ((data.lastPrice - data.firstPrice) / data.firstPrice) * 100.0;
        yearReturns := yearReturns[year := returnPct];
      }
      remaining := remaining - {year};
    }
  }

  // ---------------------------------------------------------------------
  // Averages
  // ---------------------------------------------------------------------

  /** `yearInt, _ := strconv.Atoi(year)`: the error is ignored, so a malformed key counts as its fallback value. */
  function YearNumber(year: string): int
  {
    Atoi(year).value
  }

  /** A well-formed year key reads back as its number. */
  lemma YearNumberOfItoa(n: int)
    requires InInt64(n)
    ensures YearNumber(Itoa(n)) == n
  {
    AtoiItoa(n);
  }

  /** The years `calculateMarketAverages` averages: in both maps and among the ten before the current one. */
  ghost function AverageYears(sp500: map<string, real>, qqq: map<string, real>, currentYear: int): set<string>
  {
    set y | y in sp500 && y in qqq && currentYear - 10 <= YearNumber(y) < currentYear
  }

  /** The cached returns, `LastUpdated` and the two year-to-return maps, updated in place. */
  class MarketCache {
    var lastUpdated: string
    var sp500: map<string, real>
    var qqq: map<string, real>

    /** The empty cache that `loadMarketData` returns when there is no file. */
    constructor()
      ensures lastUpdated == "" && sp500 == map[] && qqq == map[]
    {
      lastUpdated := "";
      sp500 := map[];
      qqq := map[];
    }

    /**
     * The cache is stale when nothing was ever fetched, when the date of the
     * last fetch parses and lies more than a day back, or when the current
     * year has no S&P 500 return. A date that does not parse is not by
     * itself a reason to refresh.
     */
    predicate Stale(now: int, currentYear: int, parseDay: string -> Option<int>)
      reads this
    {
      || lastUpdated == ""
      || (parseDay(lastUpdated).Some? && now - parseDay(lastUpdated).value > 24 * 60 * 60)
      || Itoa(currentYear) !in sp500
    }

    /** The staleness decision of `updateMarketData`, a flag raised by each of its three checks. */
    method NeedsUpdate(now: int, currentYear: int, parseDay: string -> Option<int>) returns (needsUpdate: bool)
      ensures needsUpdate <==> Stale(now, currentYear, parseDay)
    {
      needsUpdate := false;
      if lastUpdated != "" {
        var lastUpdate := parseDay(lastUpdated);
        if lastUpdate.Some? {
          if now - lastUpdate.value > 24 * 60 * 60 {
            needsUpdate := true;
          }
        }
      } else {
        needsUpdate := true;
      }
      var year := Itoa(currentYear);
      if year !in sp500 {
        needsUpdate := true;
      }
    }

    /**
     * The merge of `updateMarketData`: every fetched year overwrites its
     * entry, and every other cached year keeps its return.
     */
    method Merge(sp500Returns: map<string, real>, qqqReturns: map<string, real>)
      modifies this
      ensures lastUpdated == old(lastUpdated)
      ensures sp500 == old(sp500) + sp500Returns
      ensures qqq == old(qqq) + qqqReturns
    {
      sp500 := MergeInto(sp500, sp500Returns);
      qqq := MergeInto(qqq, qqqReturns);
    }

    /** The change `saveMarketData` makes to the cache: it records the day of the save. */
    method Save(today: string)
      modifies this
      ensures lastUpdated == today
      ensures sp500 == old(sp500) && qqq == old(qqq)
    {
      lastUpdated := today;
    }

    /**
     * `calculateMarketAverages` on a non-nil cache: the mean S&P 500 and
     * Nasdaq returns over the years of the last ten (not the current one)
     * present in both maps, or `(0, 0)` when there are none.
     */
    method MarketAverages(currentYear: int) returns (sp500Avg: real, qqqAvg: real)
      ensures var years := AverageYears(sp500, qqq, currentYear);
        && (years == {} ==> sp500Avg == 0.0 && qqqAvg == 0.0)
        && sp500Avg == MeanOver(sp500, years)
        && qqqAvg == MeanOver(qqq, years)
    {
      var sp500Sum, qqqSum := 0.0, 0.0;
      var count := 0;
      ghost var counted: set<string> := {};
      var remaining := sp500.Keys;
      while remaining != {}
        invariant remaining <= sp500.Keys
        invariant forall y :: y in counted <==> y in AverageYears(sp500, qqq, currentYear) && y !in remaining
        invariant count == |counted|
        invariant sp500Sum == SumOver(sp500, counted) && qqqSum == SumOver(qqq, counted)
        decreases remaining
      {
        var year :| year in remaining;
        var sp500Ret := sp500[year];
        var yearInt := YearNumber(year);
        if currentYear - 10 <= yearInt && yearInt < currentYear {
          if year in qqq {
            var qqqRet := qqq[year];
            SumOverRemove(sp500, counted + {year}, year);
            SumOverRemove(qqq, counted + {year}, year);
            assert counted + {year} - {year} == counted;
            sp500Sum := sp500Sum + sp500Ret;
            qqqSum := qqqSum + qqqRet;
            count := count + 1;
            counted := counted + {year};
          }
        }
        remaining := remaining - {year};
      }
      assert counted == AverageYears(sp500, qqq, currentYear);
      if count == 0 {
        return 0.0, 0.0;
      }
      return sp500Sum / (count as real), qqqSum / (count as real);
    }
  }

  /** `for year, ret := range fetched { m[year] = ret }`, in any order. */
  method MergeInto(m: map<string, real>, fetched: map<string, real>) returns (merged: map<string, real>)
    ensures merged == m + fetched
  {
    merged := m;
    var remaining := fetched.Keys;
    while remaining != {}
      invariant remaining <= fetched.Keys
      invariant forall y :: y in merged <==> y in m || (y in fetched && y !in remaining)
      invariant forall y :: y in merged ==> merged[y] == if y in fetched && y !in remaining then fetched[y] else m[y]
      decreases remaining
    {
      var year :| year in remaining;
      merged := merged[year := fetched[year]];
      remaining := remaining - {year};
    }
  }

  /** A fetched year takes its fetched return; any other year keeps the cached one. */
  lemma MergeKeeps(m: map<string, real>, fetched: map<string, real>, year: string)
    ensures year in fetched ==> (m + fetched)[year] == fetched[year]
    ensures year !in fetched ==> (year in m + fetched <==> year in m)
    ensures year !in fetched && year in m ==> (m + fetched)[year] == m[year]
  {
  }

  /**
   * `calculateMarketAverages`: a nil cache gives `(0, 0)`; otherwise the
   * averages of the cache.
   */
  method CalculateMarketAverages(md: MarketCache?, currentYear: int) returns (sp500Avg: real, qqqAvg: real)
    ensures md == null ==> sp500Avg == 0.0 && qqqAvg == 0.0
    ensures md != null ==> sp500Avg == MeanOver(md.sp500, AverageYears(md.sp500, md.qqq, currentYear))
    ensures md != null ==> qqqAvg == MeanOver(md.qqq, AverageYears(md.sp500, md.qqq, currentYear))
  {
    if md == null {
      return 0.0, 0.0;
    }
    sp500Avg, qqqAvg := md.MarketAverages(currentYear);
  }

  /** Each average lies between the smallest and the largest return it averages. */
  lemma AveragesWithinReturns(m: map<string, real>, years: set<string>, lo: real, hi: real)
    requires years != {} && years <= m.Keys
    requires forall y :: y in years ==> lo <= m[y] <= hi
    ensures lo <= MeanOver(m, years) <= hi
  {
    MeanOverBounds(m, years, lo, hi);
  }

  datatype UpdateError = FetchFailed | ReturnsFailed(ReturnsError)

  /**
   * `merged` is `cached` with the returns computed from `prices` written
   * over it: fetched years take their new return, other years keep theirs.
   */
  ghost predicate MergedFrom(cached: map<string, real>, prices: map<string, YearPrices>, merged: map<string, real>)
  {
    && (forall y :: y in merged <==> y in cached || (y in prices && prices[y].firstPrice > 0.0))
    && (forall y :: y in merged ==>
          if y in prices && prices[y].firstPrice > 0.0 then merged[y] == AnnualReturn(prices[y])
          else y in cached && merged[y] == cached[y])
  }

  lemma MergeReturns(cached: map<string, real>, prices: map<string, YearPrices>, fetched: map<string, real>)
    requires ReturnsOf(prices, fetched)
    ensures MergedFrom(cached, prices, cached + fetched)
  {
  }

  /**
   * The part of `updateMarketData` after loading the cache: a cache that is
   * not stale is returned untouched; otherwise the fetched price records
   * (fetching is I/O, so they come in as parameters, `None` for a failed
   * fetch) are turned into returns, merged in, and the cache is saved with
   * `today` (the formatted current date) as its new date. Any error leaves
   * the cache as it was.
   */
  method UpdateMarketData(md: MarketCache, now: int, currentYear: int, parseDay: string -> Option<int>, today: string,
                          sp500Fetch: Option<seq<seq<string>>>, qqqFetch: Option<seq<seq<string>>>,
                          parseFloat: string -> Option<real>)
    returns (r: Result<MarketCache, UpdateError>)
    modifies md
    ensures r.Ok? ==> r.value == md
    ensures !old(md.Stale(now, currentYear, parseDay)) ==>
      r.Ok? && md.lastUpdated == old(md.lastUpdated) && md.sp500 == old(md.sp500) && md.qqq == old(md.qqq)
    ensures r.Err? ==> md.lastUpdated == old(md.lastUpdated) && md.sp500 == old(md.sp500) && md.qqq == old(md.qqq)
    ensures r.Err? ==> old(md.Stale(now, currentYear, parseDay))
    ensures old(md.Stale(now, currentYear, parseDay)) ==>
      && (sp500Fetch.None? ==> r == Err(FetchFailed))
      && (sp500Fetch.Some? && |sp500Fetch.value| < 2 ==> r == Err(ReturnsFailed(InsufficientData)))
      && (sp500Fetch.Some? && |sp500Fetch.value| >= 2 && qqqFetch.None? ==> r == Err(FetchFailed))
      && (sp500Fetch.Some? && |sp500Fetch.value| >= 2 && qqqFetch.Some? && |qqqFetch.value| < 2 ==>
            r == Err(ReturnsFailed(InsufficientData)))
      && (sp500Fetch.Some? && |sp500Fetch.value| >= 2 && qqqFetch.Some? && |qqqFetch.value| >= 2 ==> r.Ok?)
    ensures old(md.Stale(now, currentYear, parseDay)) && r.Ok? ==>
      && sp500Fetch.Some? && |sp500Fetch.value| >= 2 && qqqFetch.Some? && |qqqFetch.value| >= 2
      && MergedFrom(old(md.sp500), YearPricesOf(sp500Fetch.value, parseFloat), md.sp500)
      && MergedFrom(old(md.qqq), YearPricesOf(qqqFetch.value, parseFloat), md.qqq)
      && md.lastUpdated == today
  {
    var needsUpdate := md.NeedsUpdate(now, currentYear, parseDay);
    if !needsUpdate {
      return Ok(md);
    }
    if sp500Fetch.None? {
      return Err(FetchFailed);
    }
    var sp500Returns := CalculateAnnualReturns(sp500Fetch.value, parseFloat);
    if sp500Returns.Err? {
      return Err(ReturnsFailed(sp500Returns.error));
    }
    if qqqFetch.None? {
      return Err(FetchFailed);
    }
    var qqqReturns := CalculateAnnualReturns(qqqFetch.value, parseFloat);
    if qqqReturns.Err? {
      return Err(ReturnsFailed(qqqReturns.error));
    }
    MergeReturns(md.sp500, YearPricesOf(sp500Fetch.value, parseFloat), sp500Returns.value);
    MergeReturns(md.qqq, YearPricesOf(qqqFetch.value, parseFloat), qqqReturns.value);
    md.Merge(sp500Returns.value, qqqReturns.value);
    md.Save(today);
    return Ok(md);
  }
}
