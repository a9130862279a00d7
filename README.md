# rentobuy, the projection engine and market-data helpers, in Dafny

rentobuy is a terminal calculator that compares buying a home with renting
one. The user enters prices, rates and durations as text. The program
parses them and simulates the mortgage and the recurring costs month by
month. From that simulation it reads per-period tables: expenditure, the
asset value and sale proceeds, and the net worth of the buyer and of a
renter who invests the difference. A companion tool
(`cmd/fetchmarket`) downloads index prices and inflation figures and turns
them into yearly returns and averages.

This project models that core and proves properties about it:

- `inputs.dfy` (module `Inputs`) holds the text helpers:
  - `parseAmount`: `k`/`m`/`b` suffixes and an optional `%`;
  - `parseAppreciationRates`: comma-separated rates, never empty;
  - `parseDuration`: `5y6m` and similar;
  - `formatNumber`: thousands separators.
- `go_strings.dfy` (module `GoStrings`) holds the Go library calls these
  helpers use: `strings.TrimSpace`, `ToLower`, `Index`, `Split`,
  `strconv.Atoi` and `strconv.Itoa`.
- `amortization.dfy` (module `Amortization`) holds
  `calculateMonthlyPayment` and the balance recurrence.
- `periods.dfy` (module `Periods`) holds `getPeriods`, which builds the
  display periods with the loan-term marker.
- `appreciation.dfy` (module `Appreciation`) holds the per-year compounding
  of the appreciation rates (the last rate persists) and the
  capital-gains tax.
- `projection.dfy` (module `Projection`) holds the package-level arrays of
  main.go as the class `MonthlyCosts`:
  - `populateMonthlyCosts` fills the arrays in place;
  - `calculateSaleProceeds`, `calculateNetWorth` and
    `calculateRentingNetWorth` read them;
  - the row arithmetic of the expenditure and comparison tables reads
    them too.

  Each method is proved against closed-form specification functions: the
  inflated cost of month `i`, and the amortization schedule after `k`
  payments.
- `market_data.dfy` (module `MarketData`) holds:
  - `calculateAnnualReturns`;
  - the cache as the class `MarketCache`, with the staleness decision, the
    merge of fetched returns and the save date;
  - `calculateMarketAverages`.
- `fetch_market.dfy` (module `FetchMarket`) holds, from
  `cmd/fetchmarket`:
  - the inflation-observation filter;
  - the inflation average;
  - the summary averages with the 60/40 stock/bond mix.

  The fetcher's `calculateAnnualReturns` is the same function, line for
  line, as the one in market_data.go, so one model,
  `MarketData.CalculateAnnualReturns`, serves both.
- `numeric.dfy` (module `Numeric`) and `wrappers.dfy` (module `Wrappers`)
  are shared helpers:
  - Go `int64` wrap-around;
  - integer powers;
  - prefix sums over arrays;
  - sums and means over the keys of a map, independent of Go's random map
    order;
  - `Option` and `Result`.

Money is `real`, so the amortization and accounting identities are exact.
Some of the program's inputs come from outside the model and are
parameters:

- `strconv.ParseFloat` is `parseFloat: string -> Option<real>`;
- `math.Pow` with a fractional exponent (a partial year) is
  `fracPow: (real, real) -> real`;
- `time.Now()` is `now` (seconds) and `currentYear`;
- parsing the cache's date is `parseDay`;
- the formatted save date is `today`;
- downloaded price records are `Option` values, `None` for a failed
  download.

Where the design notes and the code differ, the model follows the code:

- The staging cost of a sale is not inflated (main.go:864).
- Capital gains are `salePrice - purchasePrice`, with selling costs not
  subtracted (main.go:874).
- The tax-free limit is a single number, not a per-year list
  (main.go:835).
- The loan payoff reads `remainingLoanBalance[months-1]`, clamped to the
  array. There is no special case for month 0 (main.go:867-871).
- When selling is off, `calculateNetWorth` computes `assetValue - balance`
  itself rather than calling a short-circuited `calculateSaleProceeds`
  (main.go:1035-1048).
- An empty rate list is never rejected. `parseAppreciationRates` returns
  `[0]` at worst, so the model requires a non-empty list instead.

## Model

| member | source | states |
|---|---|---|
| Inputs.ParseAmount | main.go:307-341 | blank input (after trimming) is `Ok(0)`; every failure is `InvalidAmount` |
| Inputs.ParseAmountPlain | main.go:319-340 | a plain numeral (optionally with `%`) parses to exactly what `ParseFloat` gives it, unscaled |
| Inputs.ParseAmountSuffix | main.go:319-340 | a numeral followed by `k`/`m`/`b` (either case, optionally then `%`) is the numeral times 1e3/1e6/1e9 |
| Inputs.ParseAmountPercent | main.go:315-317 | one trailing `%` is dropped and the rest parsed as if it were absent |
| Inputs.ParseAmountNormalised | main.go:308-335 | text without surrounding space or `%` is lower-cased and then scaled by its suffix |
| Inputs.ParseAppreciationRates | main.go:345-368 | blank input is `[0]`; otherwise each comma part is parsed in order and the first bad part is reported (trimmed); every success is non-empty |
| Inputs.ParseRateList | main.go:352-361 | the list has one rate per part, each equal to that part's parse, or the error names the first failing part |
| Inputs.ParseDuration | main.go:486-520 | every success is strictly positive; every failure is one of the three error kinds |
| Inputs.ParseYearsAndMonths | main.go:486-520 | `"<Y>y<M>m"` is `12*Y + M` months, an error when not positive |
| Inputs.ParseYears | main.go:491-519 | `"<Y>y"` (missing months count 0) is `12*Y` months, an error when not positive |
| Inputs.ParseMonths | main.go:503-519 | `"<M>m"` (missing years count 0) is `M` months, an error when not positive |
| Inputs.MonthsAfter | main.go:503-519 | after the years, `"<M>m"` adds `M` months to `12*Y` |
| Inputs.BadYearsPart | main.go:493-499 | a non-integer years part is `InvalidYearFormat` whatever follows |
| Inputs.BadMonthsPart | main.go:504-511 | a non-integer months part is `InvalidMonthFormat` |
| Inputs.AppendGrouped | main.go:473-480 | the loop writes the text with a comma before each position that has a positive multiple of three characters after it |
| Inputs.StripGrouped | main.go:475-480 | grouping only inserts commas: removing them gives back the text |
| Inputs.FormatNumber | main.go:471-483 | the output is `Itoa(num)` with the grouping commas, and removing the commas gives `Itoa(num)` back |
| Inputs.FormatNumberCommaAfterSign | main.go:475-478 | for a negative number whose digit count is a multiple of three, a comma directly follows the minus sign |
| Inputs.FormatNumberMinus123 | main.go:471-483 | `formatNumber(-123)` is `"-,123"` |
| Inputs.FormatNumberSigned | main.go:471-483 | corrected form: same digits back after removing commas, every comma directly follows a digit, same output as written for non-negative numbers, and for a negative number a minus sign followed by the grouped digits |
| GoStrings.TrimSpaceTrims | main.go:308 | `TrimSpace` returns a slice of the input with only white space cut off either end, leaves no white space at either end, and a second trim changes nothing |
| GoStrings.JoinSplit | main.go:352 | splitting on the separator loses nothing: joining the parts gives the input back |
| GoStrings.AtoiItoa | main.go:496-508 | `Atoi` reads back every `int64` that `Itoa` writes, without error |
| Amortization.MonthlyPayment | main.go:524-532 | with rate 0 the payment times the number of months is the principal |
| Amortization.AmortizationCloses | main.go:522-532 | the formula's payment, run through the recurrence `b' = b - (M - b*r)` for `months` steps, leaves a balance of exactly 0 |
| Amortization.AllPrincipalRepaid | main.go:1086-1094 | with the formula's payment, the principal repaid over the term is the whole loan |
| Amortization.PrincipalPlusBalance | main.go:1086-1099 | principal repaid plus the balance still owed is always the amount borrowed |
| Amortization.InterestPlusPrincipal | main.go:1086-1095 | after `k` payments interest plus principal is `k` times the payment |
| Amortization.BalanceClosedForm | main.go:1086-1091 | the balance after `k` payments satisfies `r*b_k = P*r*(1+r)^k - M*((1+r)^k - 1)` |
| Amortization.BalanceWithoutInterest | main.go:1086-1091 | at rate 0 the balance after `k` payments is the principal minus `k` payments |
| Appreciation.RateForYear | main.go:843-846 | the rate of a year past the end of the list is the last rate |
| Appreciation.Appreciate | main.go:836-858 | the compounding loop yields the asset value: whole years at their rates, then a partial year via `fracPow` |
| Appreciation.CompoundIsProduct | main.go:842-848 | compounding `k` whole years is the price times the product of the yearly factors |
| Appreciation.WholeYearsValue | main.go:837-858 | for `12*k` months the asset value is the price times the product of the first `k` factors |
| Appreciation.CompoundSingleRate | main.go:842-848 | with a single rate `r`, `k` years give `price*(1+r/100)^k` |
| Appreciation.OneYearSingleRate | main.go:842-858 | a single rate `r` over 12 months gives `price*(1+r/100)` |
| Appreciation.LastRatePersists | main.go:843-847 | beyond the list, each further year compounds at the last rate |
| Appreciation.CompoundNeverBelowPrice | main.go:842-848 | with non-negative rates and price the value never falls below the price |
| Appreciation.MaxZero | main.go:877 | `math.Max(0, x)`: at least 0 and at least `x`, and one of the two |
| Appreciation.TaxOnGains | main.go:877-880 | gains up to the limit are untaxed; above it the excess is taxed at the rate; the tax is never negative for a non-negative rate |
| Appreciation.TaxAroundLimit | main.go:877-880 | one unit above the limit is taxed `rate/100`; one unit below, nothing |
| Periods.StandardPeriods | main.go:540-570 | ascending periods from 12 to 360 months: ten, or thirteen with the 30-year option |
| Periods.AscendingIsIncreasing | main.go:589-618 | in an ascending period list the months strictly increase across any two positions |
| Periods.LabelSplits | main.go:579-587 | the loan-term label is `"X "` followed by the duration text |
| Periods.WholeYearsTailParses | main.go:580-582 | for a whole number of years, the label's duration text parses back to the loan duration |
| Periods.YearsAndMonthsTailParses | main.go:583-587 | for years plus months, the label's duration text parses back to the loan duration |
| Periods.LoanTermLabelParses | main.go:579-587 | the label after `"X "` parses back to the loan duration |
| Periods.GetPeriods | main.go:535-621 | months strictly increase; with no loan it is exactly the standard list; otherwise the loan term appears with its label and every standard period of a different length is kept |
| Periods.InsertLoanTerm | main.go:589-618 | the insertion loop keeps the list ascending and its members are the standard periods other than the loan's length plus the loan term |
| Periods.ScanShape | main.go:589-610 | the loop's result ends with the last standard period scanned; `inserted` is set exactly when the loan is no longer than it |
| Periods.ScanAscending | main.go:589-610 | every prefix the loop builds is ascending |
| Periods.ScanWithoutLoan | main.go:589-610 | with no loan the loop copies the standard periods |
| Periods.ScanMembers | main.go:589-610 | the loop's members are the scanned standard periods other than the loan's length, plus the loan once inserted |
| Projection.MonthlyCosts.constructor | main.go:24-29 | empty arrays and the given non-empty rate list |
| Projection.MonthlyCosts.PopulateMonthlyCosts | main.go:1054-1109 | fresh arrays of `maxMonths` entries; entry `i` is the inflated rent, the payment plus the inflated recurring cost (recurring only after the term), and the balance and cumulative principal and interest after the payments made by then |
| Projection.FillMonths | main.go:1072-1108 | the month loop stores, for every month, the row read off the running state after that month |
| Projection.MonthStored | main.go:1072-1108 | the row the loop stores for month `i` is the closed-form row for that month |
| Projection.RunCosts | main.go:1073-1080 | after `n` months the running rent and recurring cost are the base times `(1+inflation/100)^(last month / 12)` |
| Projection.RunLoan | main.go:1083-1107 | after `n` months the running balance and totals are the schedule's after `min(n, term)` payments |
| Projection.PaymentRecurrence | main.go:1086-1095 | each payment adds the month's interest to the interest total, the rest to principal, and lowers the balance by that rest |
| Projection.InflationStep | main.go:1074-1077 | costs are raised by `(1+inflation/100)` exactly on anniversaries (`i > 0`, `i % 12 == 0`) and are unchanged otherwise |
| Projection.InflationConstantWithinYear | main.go:1074-1080 | a month's cost equals the cost at the start of its 12-month block |
| Projection.PaymentStep | main.go:1083 | a payment is made in month `i` exactly when `i < loanDuration` |
| Projection.ScheduleWhileOwing | main.go:1083-1100 | during the term principal plus balance is the loan, interest plus principal is `(i+1)` payments, and buying cost is payment plus recurring |
| Projection.ScheduleAfterTerm | main.go:1101-1107 | after the term the balance is 0, buying cost is recurring only, and the totals stay at their last-payment values (0 with no term) |
| Projection.LoanRunsOff | main.go:1083-1107 | with the formula's payment the balance is 0 and the principal repaid is the loan from the last payment on |
| Projection.PayoffIndex | main.go:867-871 | the payoff index is `months-1`, clamped to the last array entry |
| Projection.SaleAccounts | main.go:860-883 | net proceeds are the price less commission, staging, payoff and tax; these parts add up to the sale price; tax is 0 up to the limit, the formula above it, and never negative |
| Projection.MonthlyCosts.CalculateSaleProceeds | main.go:835-886 | the sale price is the compounded asset value, the payoff is the clamped balance entry, and the six results are the sale breakdown |
| Projection.MonthlyCosts.CalculateNetWorth | main.go:1001-1051 | the asset value is the one `CalculateSaleProceeds` uses; expenditure is the downpayment plus the first `months` buying costs; net worth is the sale's net proceeds when selling, else value minus balance |
| Projection.MonthlyCosts.CalculateRentingNetWorth | main.go:1113-1134 | the investment after adding each month's saving and then growing it monthly, plus 75% of the deposit |
| Projection.InvestedWithoutReturn | main.go:1119-1128 | with a 0% return the investment is the start plus the sum of the monthly savings |
| Projection.InvestedAtLeastSavings | main.go:1119-1128 | with a non-negative return, start and savings, the investment is at least the start plus the savings |
| Projection.MonthlyCosts.ExpenditureRow | main.go:751-762 | the buying and renting totals are the deposit or downpayment plus the costs so far, and the difference is the down-payment gap plus the summed savings |
| Projection.MonthlyCosts.ComparisonRow | main.go:790-809 | buying net worth is the sale's net proceeds when selling, else value minus balance; renting net worth is the monthly-compounded investment of the savings plus 75% of the deposit, split into cumulative savings, market return and deposit; the market return is 0 at a 0% rate and non-negative when every saving is; the last column is renting minus buying |
| MarketData.CalculateAnnualReturns | market_data.go:97-149 | fewer than two records is `InsufficientData`; otherwise exactly the years (header skipped, bad records skipped) whose first price is positive, each with `(last-first)/first*100` |
| MarketData.AnnualReturns | market_data.go:139-146 | exactly the years with a positive first price, each mapped to its return |
| MarketData.NoQuoteNoYear | market_data.go:112-128 | a year with no usable record gets no entry |
| MarketData.FirstPriceIsFirstQuote | market_data.go:130-133 | a year's first price is that of its first usable record in input order |
| MarketData.LastPriceIsLastQuote | market_data.go:135-136 | a year's last price is that of its last usable record in input order |
| MarketData.AnnualReturnGrowth | market_data.go:142-144 | the first price grown by the return is the last price; the return is positive (zero) exactly when the price rose (stayed) |
| MarketData.YearNumberOfItoa | market_data.go:287 | a year key written by `Itoa` reads back as its number |
| MarketData.MarketCache.constructor | market_data.go:156-159 | an empty cache: no date, no returns |
| MarketData.MarketCache.NeedsUpdate | market_data.go:200-219 | an update is needed exactly when the date is empty, or parses and is over 24 hours old, or the current year has no S&P 500 return |
| MarketData.MarketCache.Merge | market_data.go:256-262 | both maps are overwritten by the fetched years and keep every other year |
| MarketData.MarketCache.Save | market_data.go:181-182 | saving records the day and changes no return |
| MarketData.MarketCache.MarketAverages | market_data.go:281-302 | the means over the years of the last ten before the current one present in both maps, or `(0, 0)` when none |
| MarketData.MergeInto | market_data.go:257-259 | the loop's result is the cached map overwritten by the fetched one |
| MarketData.MergeKeeps | market_data.go:256-262 | fetched years take the fetched return; other years keep exactly their cached entry |
| MarketData.MergeReturns | market_data.go:237-262 | merging computed returns writes the new return for every year with a positive first price and keeps every other cached year |
| MarketData.CalculateMarketAverages | market_data.go:276-303 | a nil cache gives `(0, 0)`; otherwise the two means over the qualifying years |
| MarketData.AveragesWithinReturns | market_data.go:298-302 | an average lies between the smallest and largest return averaged |
| MarketData.UpdateMarketData | market_data.go:199-272 | a fresh cache is returned untouched; a stale one is refreshed exactly when both downloads succeed with at least two records, and otherwise fails with the error of the first step that fails (S&P 500 download, its returns, QQQ download, its returns) and is left unchanged; a refresh merges the returns into both maps and records today's date |
| FetchMarket.FilterInflation | cmd/fetchmarket/main.go:142-151 | the map is the fold of the usable observations in order, each writing its year's rate |
| FetchMarket.InflationYears | cmd/fetchmarket/main.go:142-151 | a year has a rate exactly when some observation with a long-enough date, a value other than `"."` and a parsable value falls in it |
| FetchMarket.InflationLastWins | cmd/fetchmarket/main.go:145-149 | a year's rate is that of its last usable observation: later ones overwrite earlier ones |
| FetchMarket.InflationAverage | cmd/fetchmarket/main.go:280-292 | the mean rate over the years strictly before the current one, 0 when there are none |
| FetchMarket.InflationAverageWithinRates | cmd/fetchmarket/main.go:288-291 | the average lies between the smallest and largest past rate |
| FetchMarket.MixBetween | cmd/fetchmarket/main.go:341 | a year's 60/40 mix lies between its stock and bond returns |
| FetchMarket.SummarySums | cmd/fetchmarket/main.go:336-350 | the four sums and the count run over exactly the VOO years before the current one (a missing ticker return counts 0) |
| FetchMarket.MeanOfMixes | cmd/fetchmarket/main.go:357 | the mean of the yearly 60/40 mixes is the 60/40 mix of the VTI and BND means |
| FetchMarket.SummaryAverages | cmd/fetchmarket/main.go:321-362 | no average row when no year is past; otherwise each ticker's mean over the past years, and a mix that equals the mean of the yearly mixes |

## Left out

- form.go, the terminal user interface, is not part of this model.
- Printing is not modelled: `displayTable`, `formatCurrency` (float formatting), the `display*` functions' loops over periods and their string building, and the table printing in `printSummary`. Only the arithmetic of one row is modelled, for one period length.
- Input and output are not modelled: reading and saving the input defaults, reading and writing the cache file, the HTTP downloads and JSON decoding, `time.Sleep`, flags and the `main` functions. A failed download is a `None` parameter, and a cache that fails to load or save is not modelled.
- Floating point is not modelled: money is exact `real` arithmetic, and `strconv.ParseFloat` and the fractional `math.Pow` are uninterpreted parameters.
- Go's map iteration order is not modelled: the loops pick keys in an arbitrary order, and the sums they compute do not depend on it. `printSummary`'s sort of the years affects only printing.
- GoStrings.ToLower: lowers ASCII letters only. Go's `strings.ToLower` (main.go:308, main.go:487) also lowers every other Unicode upper-case letter, so for example a `K` written as the Kelvin sign U+212A is a `k` suffix in Go but an `InvalidAmount` here. Inputs outside ASCII are not modelled.
- MarketData.QuoteOf and FetchMarket.ReadingOf count characters where Go's `len(date) < 4` and `date[:4]` count bytes (market_data.go:119-122 and the inflation loop of cmd/fetchmarket/main.go). The two agree on the ASCII dates the data sources send; a date with non-ASCII characters is not modelled.
- Time is whole seconds: `now` and `parseDay` give seconds, and "more than 24 hours" is `now - day > 86400`.
- The cross-file mismatches between `main` in main.go and the two market-data files are not modelled: each file's functions are modelled as written.
- Projection.MonthlyCosts.CalculateSaleProceeds: requires `months >= 1` and a non-empty balance array, because Go panics on index `-1` there.
- Projection.MonthlyCosts.CalculateNetWorth: requires `1 <= months <=` the array length, because Go panics outside it (a loan term over 30 years makes `getPeriods` emit such a period).
- Projection.MonthlyCosts.CalculateRentingNetWorth: requires `months <=` the array length for the same reason.
- Projection.MonthlyCosts.ExpenditureRow: requires `months <=` the array length for the same reason.
- Projection.MonthlyCosts.ComparisonRow: requires `1 <= months <=` the array length for the same reason.
- Projection.MonthlyCosts.PopulateMonthlyCosts: the month loop is the separate method `Projection.FillMonths`, which writes five fresh arrays. The class method then installs them, so the five arrays are never aliased.
- Amortization.MonthlyPayment: requires `months >= 1` and a rate for which `(1+r)^months != 1`. Go divides by zero otherwise, which yields infinities or NaN.
- Appreciation.CompoundNeverBelowPrice: does not cover a partial final year, whose `fracPow` factor is uninterpreted.
- FetchMarket.InflationAverage: returns 0 when there is no past year, where Go leaves the field at its previous value (0 on a fresh struct).
- Go `int` overflow is modelled only in `parseDuration` (`years*12 + months` wraps) and in `strconv.Atoi`'s range check. The month and period counts stay far below it.

## Findings

| source | as written | input that shows it | evidently intended | confidence | as-written member | corrected member |
|---|---|---|---|---|---|---|
| main.go:471-483 | `formatNumber` counts the minus sign as a digit when placing commas | `formatNumber(-123)` gives `"-,123"` | `"-123"`: commas only between digits | not executed; proved about the model of the code | Inputs.FormatNumberMinus123 | Inputs.FormatNumberSigned |
