/**
 * The month-by-month projection of main.go: `populateMonthlyCosts` fills the
 * package-level arrays (main.go:24-29) and everything else reads them —
 * the sale of the property, the net worth of buying and of renting, and the
 * per-period rows of the expenditure and net-worth tables.
 *
 * The package-level variables are the fields of the class `MonthlyCosts`;
 * each spec function below gives, for a month `i` (0-based), the value the
 * source stores at index `i`.
 */
module Projection {
  import opened Numeric
  import opened Amortization
  import opened Appreciation

  /** The arguments of `populateMonthlyCosts` other than the number of months. */
  datatype Scenario = Scenario(
    monthlyLoanPayment: real,
    monthlyRecurringExpenses: real,
    loanDuration: int,
    monthlyRentingCost: real,
    loanAmount: real,
    monthlyRate: real,
    inflationRate: real)

  // ---------------------------------------------------------------------
  // What populateMonthlyCosts stores
  // ---------------------------------------------------------------------

  /** A monthly cost in month `month`: raised by `inflationRate` percent on every anniversary. */
  function Inflated(base: real, inflationRate: real, month: nat): real
  {
    base * Pow(1.0 + inflationRate / 100.0, month / 12)
  }

  /** How many loan payments fall in the first `n` months. */
  function PaymentsMade(loanDuration: int, n: nat): nat
  {
    if n <= loanDuration then n else if loanDuration > 0 then loanDuration else 0
  }

  function RentingCost(sc: Scenario, i: nat): real
  {
    Inflated(sc.monthlyRentingCost, sc.inflationRate, i)
  }

  /** The cost of owning in month `i`: the loan payment while the loan runs, plus the recurring expenses. */
  function BuyingCost(sc: Scenario, i: nat): real
  {
    var recurring := Inflated(sc.monthlyRecurringExpenses, sc.inflationRate, i);
    if i < sc.loanDuration then sc.monthlyLoanPayment + recurring else recurring
  }

  /** The balance after the `k`-th payment of the loan. */
  function ScheduledBalance(sc: Scenario, k: nat): real
  {
    Balance(sc.loanAmount, sc.monthlyRate, sc.monthlyLoanPayment, k)
  }

  /** The balance stored for month `i`: after that month's payment, and 0 once the term is over. */
  function BalanceAt(sc: Scenario, i: nat): real
  {
    if i < sc.loanDuration then ScheduledBalance(sc, i + 1) else 0.0
  }

  /** The principal repaid up to and including month `i`. */
  function PrincipalAt(sc: Scenario, i: nat): real
  {
    PrincipalPaid(sc.loanAmount, sc.monthlyRate, sc.monthlyLoanPayment, PaymentsMade(sc.loanDuration, i + 1))
  }

  /** The interest paid up to and including month `i`. */
  function InterestAt(sc: Scenario, i: nat): real
  {
    InterestPaid(sc.loanAmount, sc.monthlyRate, sc.monthlyLoanPayment, PaymentsMade(sc.loanDuration, i + 1))
  }

  /** Month `i` opens a new year of the projection (not the first one): costs rise with inflation. */
  predicate Anniversary(i: nat)
  {
    i > 0 && i % 12 == 0
  }

  /** One month's interest on `balance` at `monthlyRate`. */
  function MonthlyInterest(balance: real, monthlyRate: real): real
  {
    balance * monthlyRate
  }

  /** A cost after one anniversary's raise of `inflationRate` percent. */
  function Raised(cost: real, inflationRate: real): real
  {
    cost * (1.0 + inflationRate / 100.0)
  }

  /** Month `i` either makes the next payment or, once the term is over, none. */
  lemma PaymentStep(loanDuration: int, i: nat)
    ensures i < loanDuration ==> PaymentsMade(loanDuration, i) == i && PaymentsMade(loanDuration, i + 1) == i + 1
    ensures i >= loanDuration ==> PaymentsMade(loanDuration, i + 1) == PaymentsMade(loanDuration, i)
  {
  }

  /**
   * The step the source takes at the top of each month: on an anniversary
   * the cost is raised by `inflationRate` percent, and in every other month
   * it is the previous month's cost.
   */
  lemma InflationStep(base: real, inflationRate: real, i: nat)
    requires i > 0
    ensures Anniversary(i) ==> Inflated(base, inflationRate, i) == Raised(Inflated(base, inflationRate, i - 1), inflationRate)
    ensures !Anniversary(i) ==> Inflated(base, inflationRate, i) == Inflated(base, inflationRate, i - 1)
  {
    var g := 1.0 + inflationRate / 100.0;
    if i % 12 == 0 {
      assert i / 12 == (i - 1) / 12 + 1;
      GrowOnce(base, Pow(g, (i - 1) / 12), g);
    } else {
      assert i / 12 == (i - 1) / 12;
    }
  }

  /** Costs are constant within each 12-month block: month `i` costs what the block's first month costs. */
  lemma InflationConstantWithinYear(base: real, inflationRate: real, i: nat)
    ensures Inflated(base, inflationRate, i) == Inflated(base, inflationRate, i - i % 12)
  {
    assert (i - i % 12) / 12 == i / 12;
  }

  /**
   * While the loan runs, the principal repaid plus the balance is the amount
   * borrowed, interest plus principal is one payment per month so far, and
   * the buying cost is the payment plus the recurring expenses.
   */
  lemma ScheduleWhileOwing(sc: Scenario, i: nat)
    requires i < sc.loanDuration
    ensures PrincipalAt(sc, i) + BalanceAt(sc, i) == sc.loanAmount
    ensures InterestAt(sc, i) + PrincipalAt(sc, i) == Times(i + 1, sc.monthlyLoanPayment)
    ensures BuyingCost(sc, i) == sc.monthlyLoanPayment + Inflated(sc.monthlyRecurringExpenses, sc.inflationRate, i)
  {
    PrincipalPlusBalance(sc.loanAmount, sc.monthlyRate, sc.monthlyLoanPayment, i + 1);
    InterestPlusPrincipal(sc.loanAmount, sc.monthlyRate, sc.monthlyLoanPayment, i + 1);
  }

  /**
   * After the term the balance is 0, the totals stay at their value in the
   * last month of the loan, and the buying cost is the recurring expenses alone.
   */
  lemma ScheduleAfterTerm(sc: Scenario, i: nat)
    requires sc.loanDuration <= i
    ensures BalanceAt(sc, i) == 0.0
    ensures BuyingCost(sc, i) == Inflated(sc.monthlyRecurringExpenses, sc.inflationRate, i)
    ensures sc.loanDuration > 0 ==> PrincipalAt(sc, i) == PrincipalAt(sc, sc.loanDuration - 1)
    ensures sc.loanDuration > 0 ==> InterestAt(sc, i) == InterestAt(sc, sc.loanDuration - 1)
    ensures sc.loanDuration <= 0 ==> PrincipalAt(sc, i) == 0.0 && InterestAt(sc, i) == 0.0
  {
  }

  /**
   * With the payment of `calculateMonthlyPayment` for the loan term, the
   * balance is 0 from the last payment on and the whole loan has been repaid.
   */
  lemma LoanRunsOff(sc: Scenario, i: nat)
    requires sc.loanDuration >= 1 && sc.loanDuration - 1 <= i
    requires sc.monthlyRate == 0.0 || Pow(1.0 + sc.monthlyRate, sc.loanDuration) != 1.0
    requires sc.monthlyLoanPayment == MonthlyPayment(sc.loanAmount, sc.monthlyRate, sc.loanDuration)
    ensures BalanceAt(sc, i) == 0.0
    ensures PrincipalAt(sc, i) == sc.loanAmount
  {
    AmortizationCloses(sc.loanAmount, sc.monthlyRate, sc.loanDuration);
    AllPrincipalRepaid(sc.loanAmount, sc.monthlyRate, sc.loanDuration);
    assert PaymentsMade(sc.loanDuration, i + 1) == sc.loanDuration;
  }

  /** The running values of `populateMonthlyCosts` between months. */
  datatype Running = Running(rent: real, recurring: real, balance: real, totalPrincipal: real, totalInterest: real)

  /** One month of the source's loop: the anniversary step, then a payment if the loan still runs. */
  function MonthStep(sc: Scenario, s: Running, i: nat): Running
  {
    var rent := if Anniversary(i) then Raised(s.rent, sc.inflationRate) else s.rent;
    var recurring := if Anniversary(i) then Raised(s.recurring, sc.inflationRate) else s.recurring;
    if i < sc.loanDuration then
      var interestPayment := MonthlyInterest(s.balance, sc.monthlyRate);
      var principalPayment := sc.monthlyLoanPayment - interestPayment;
      Running(rent, recurring, s.balance - principalPayment,
              s.totalPrincipal + principalPayment, s.totalInterest + interestPayment)
    else
      Running(rent, recurring, s.balance, s.totalPrincipal, s.totalInterest)
  }

  /** The running values after the first `n` months. */
  function Run(sc: Scenario, n: nat): Running
  {
    if n == 0 then Running(sc.monthlyRentingCost, sc.monthlyRecurringExpenses, sc.loanAmount, 0.0, 0.0)
    else MonthStep(sc, Run(sc, n - 1), n - 1)
  }

  /** The five values the source stores for one month. */
  datatype MonthRow = MonthRow(buy: real, rent: real, balance: real, principal: real, interest: real)

  /** The row stored for month `j`, read off the running values after that month. */
  function Stored(sc: Scenario, j: nat): MonthRow
  {
    var s := Run(sc, j + 1);
    MonthRow(if j < sc.loanDuration then sc.monthlyLoanPayment + s.recurring else s.recurring,
             s.rent,
             if j < sc.loanDuration then s.balance else 0.0,
             s.totalPrincipal,
             s.totalInterest)
  }

  /** After `n` months the running costs are those of month `n - 1` (of month 0 before the loop). */
  lemma {:induction false} RunCosts(sc: Scenario, n: nat)
    ensures var last := if n == 0 then 0 else n - 1;
      && Run(sc, n).rent == Inflated(sc.monthlyRentingCost, sc.inflationRate, last)
      && Run(sc, n).recurring == Inflated(sc.monthlyRecurringExpenses, sc.inflationRate, last)
  {
    if n > 1 {
      RunCosts(sc, n - 1);
      InflationStep(sc.monthlyRentingCost, sc.inflationRate, n - 1);
      InflationStep(sc.monthlyRecurringExpenses, sc.inflationRate, n - 1);
    }
  }

  /** One payment: the balance falls by what the payment leaves after the month's interest. */
  lemma PaymentRecurrence(sc: Scenario, k: nat)
    requires k > 0
    ensures var b := ScheduledBalance(sc, k - 1);
      var interestPayment := MonthlyInterest(b, sc.monthlyRate);
      && ScheduledBalance(sc, k) == b - (sc.monthlyLoanPayment - interestPayment)
      && PrincipalPaid(sc.loanAmount, sc.monthlyRate, sc.monthlyLoanPayment, k)
         == PrincipalPaid(sc.loanAmount, sc.monthlyRate, sc.monthlyLoanPayment, k - 1) + (sc.monthlyLoanPayment - interestPayment)
      && InterestPaid(sc.loanAmount, sc.monthlyRate, sc.monthlyLoanPayment, k)
         == InterestPaid(sc.loanAmount, sc.monthlyRate, sc.monthlyLoanPayment, k - 1) + interestPayment
  {
  }

  /** After `n` months the balance and the totals are those after the payments made so far. */
  lemma {:induction false} RunLoan(sc: Scenario, n: nat)
    ensures var k := PaymentsMade(sc.loanDuration, n);
      && Run(sc, n).balance == ScheduledBalance(sc, k)
      && Run(sc, n).totalPrincipal == PrincipalPaid(sc.loanAmount, sc.monthlyRate, sc.monthlyLoanPayment, k)
      && Run(sc, n).totalInterest == InterestPaid(sc.loanAmount, sc.monthlyRate, sc.monthlyLoanPayment, k)
  {
    if n > 0 {
      RunLoan(sc, n - 1);
      PaymentStep(sc.loanDuration, n - 1);
      var s := Run(sc, n - 1);
      if n - 1 < sc.loanDuration {
        var interestPayment := MonthlyInterest(s.balance, sc.monthlyRate);
        assert Run(sc, n).balance == s.balance - (sc.monthlyLoanPayment - interestPayment);
        assert Run(sc, n).totalPrincipal == s.totalPrincipal + (sc.monthlyLoanPayment - interestPayment);
        assert Run(sc, n).totalInterest == s.totalInterest + interestPayment;
        PaymentRecurrence(sc, n);
      } else {
        assert Run(sc, n).balance == s.balance;
        assert Run(sc, n).totalPrincipal == s.totalPrincipal && Run(sc, n).totalInterest == s.totalInterest;
      }
    }
  }

  /** What the source stores for month `i` agrees with the schedule. */
  lemma MonthStored(sc: Scenario, i: nat)
    ensures Stored(sc, i) == MonthRow(BuyingCost(sc, i), RentingCost(sc, i), BalanceAt(sc, i),
                                      PrincipalAt(sc, i), InterestAt(sc, i))
  {
    RunCosts(sc, i + 1);
    RunLoan(sc, i + 1);
  }

  // ---------------------------------------------------------------------
  // Reading the arrays
  // ---------------------------------------------------------------------

  /** The index `loanPayoff` reads: `months - 1`, clamped to the last element. */
  function PayoffIndex(months: int, length: int): (k: int)
    requires months >= 1 && length >= 1
    ensures 0 <= k < length
    ensures months <= length ==> k == months - 1
    ensures months > length ==> k == length - 1
  {
    if months - 1 >= length then length - 1 else months - 1
  }

  /** The six values `calculateSaleProceeds` returns. */
  datatype SaleProceeds = SaleProceeds(
    salePrice: real,
    totalSellingCosts: real,
    loanPayoff: real,
    capitalGains: real,
    taxOnGains: real,
    netProceeds: real)

  /**
   * The sale at `salePrice`: the agent's commission (a percentage of the
   * price) and the staging costs, the loan still owed, and the tax on the
   * gain over the purchase price — a gain that the selling costs do not reduce.
   */
  function Sale(salePrice: real, purchasePrice: real, agentCommission: real, stagingCosts: real,
                loanPayoff: real, taxFreeLimit: real, capitalGainsTax: real): SaleProceeds
  {
    var totalSellingCosts := salePrice * (agentCommission / 100.0) + stagingCosts;
    var capitalGains := salePrice - purchasePrice;
    var tax := TaxOnGains(capitalGains, taxFreeLimit, capitalGainsTax);
    SaleProceeds(salePrice, totalSellingCosts, loanPayoff, capitalGains, tax,
                 salePrice - totalSellingCosts - loanPayoff - tax)
  }

  /**
   * What the seller keeps: the price less commission, staging, payoff and
   * tax; the tax falls on `salePrice - purchasePrice` alone, is 0 within the
   * tax-free limit and never negative at a non-negative rate.
   */
  lemma SaleAccounts(salePrice: real, purchasePrice: real, agentCommission: real, stagingCosts: real,
                     loanPayoff: real, taxFreeLimit: real, capitalGainsTax: real)
    ensures var s := Sale(salePrice, purchasePrice, agentCommission, stagingCosts, loanPayoff, taxFreeLimit, capitalGainsTax);
      && s.netProceeds == salePrice * (1.0 - agentCommission / 100.0) - stagingCosts - loanPayoff - s.taxOnGains
      && s.netProceeds + s.totalSellingCosts + s.loanPayoff + s.taxOnGains == s.salePrice
      && (salePrice - purchasePrice <= taxFreeLimit ==> s.taxOnGains == 0.0)
      && (salePrice - purchasePrice > taxFreeLimit ==>
            s.taxOnGains == (salePrice - purchasePrice - taxFreeLimit) * (capitalGainsTax / 100.0))
      && (capitalGainsTax >= 0.0 ==> s.taxOnGains >= 0.0)
  {
  }

  /** The renting investment after `k` months: each month's saving is added, then the whole grows by `g`. */
  function Invested(start: real, buy: seq<real>, rent: seq<real>, g: real, k: nat): real
    requires k <= |buy| && k <= |rent|
  {
    if k == 0 then start else (Invested(start, buy, rent, g, k - 1) + (buy[k - 1] - rent[k - 1])) * (1.0 + g)
  }

  /** At a zero return the investment is just the starting sum plus the savings. */
  lemma {:induction false} InvestedWithoutReturn(start: real, buy: seq<real>, rent: seq<real>, k: nat)
    requires k <= |buy| && k <= |rent|
    ensures Invested(start, buy, rent, 0.0, k) == start + PrefixDiffSum(buy, rent, k)
  {
    if k > 0 {
      InvestedWithoutReturn(start, buy, rent, k - 1);
    }
  }

  /**
   * With a non-negative start, savings every month and a non-negative
   * return, the investment is never worth less than what was put in.
   */
  lemma {:induction false} InvestedAtLeastSavings(start: real, buy: seq<real>, rent: seq<real>, g: real, k: nat)
    requires k <= |buy| && k <= |rent|
    requires start >= 0.0 && g >= 0.0
    requires forall i :: 0 <= i < k ==> buy[i] >= rent[i]
    ensures Invested(start, buy, rent, g, k) >= start + PrefixDiffSum(buy, rent, k) >= 0.0
  {
    if k > 0 {
      InvestedAtLeastSavings(start, buy, rent, g, k - 1);
      var x := Invested(start, buy, rent, g, k - 1) + (buy[k - 1] - rent[k - 1]);
      MulAtLeast(x, 1.0 + g);
    }
  }

  // ---------------------------------------------------------------------
  // The package-level arrays
  // ---------------------------------------------------------------------

  /**
   * The loop of `populateMonthlyCosts` over freshly made arrays: month by
   * month it applies the anniversary raise, stores the rent, and either
   * makes a payment (splitting it into interest and principal) or, after
   * the term, stores the recurring cost alone with a zero balance.
   */
  method FillMonths(maxMonths: nat, sc: Scenario)
    returns (buy: array<real>, rent: array<real>, balance: array<real>, principal: array<real>, interest: array<real>)
    ensures fresh(buy) && fresh(rent) && fresh(balance) && fresh(principal) && fresh(interest)
    ensures buy.Length == rent.Length == balance.Length == principal.Length == interest.Length == maxMonths
    ensures forall j :: 0 <= j < maxMonths ==>
      MonthRow(buy[j], rent[j], balance[j], principal[j], interest[j]) == Stored(sc, j)
  {
    buy := new real[maxMonths];
    rent := new real[maxMonths];
    balance := new real[maxMonths];
    principal := new real[maxMonths];
    interest := new real[maxMonths];

    var currentRentingCost := sc.monthlyRentingCost;
    var currentRecurringExpenses := sc.monthlyRecurringExpenses;
    var currentBalance := sc.loanAmount;
    var totalPrincipalPaid, totalInterestPaid := 0.0, 0.0;
    var i := 0;
    while i < maxMonths
      modifies buy, rent, balance, principal, interest
      invariant 0 <= i <= maxMonths
      invariant Running(currentRentingCost, currentRecurringExpenses, currentBalance,
                        totalPrincipalPaid, totalInterestPaid) == Run(sc, i)
      invariant forall j :: 0 <= j < i ==>
        MonthRow(buy[j], rent[j], balance[j], principal[j], interest[j]) == Stored(sc, j)
    {
      if Anniversary(i) {
        currentRentingCost := Raised(currentRentingCost, sc.inflationRate);
        currentRecurringExpenses := Raised(currentRecurringExpenses, sc.inflationRate);
      }
      rent[i] := currentRentingCost;
      if i < sc.loanDuration {
        buy[i] := sc.monthlyLoanPayment + currentRecurringExpenses;
        var interestPayment := MonthlyInterest(currentBalance, sc.monthlyRate);
        var principalPayment := sc.monthlyLoanPayment - interestPayment;
        currentBalance := currentBalance - principalPayment;
        totalPrincipalPaid := totalPrincipalPaid + principalPayment;
        totalInterestPaid := totalInterestPaid + interestPayment;
        balance[i] := currentBalance;
        principal[i] := totalPrincipalPaid;
        interest[i] := totalInterestPaid;
      } else {
        buy[i] := currentRecurringExpenses;
        balance[i] := 0.0;
        principal[i] := totalPrincipalPaid;
        interest[i] := totalInterestPaid;
      }
      assert Running(currentRentingCost, currentRecurringExpenses, currentBalance,
                     totalPrincipalPaid, totalInterestPaid) == Run(sc, i + 1);
      i := i + 1;
    }
  }

  /**
   * The package-level variables of main.go:24-29: five month arrays, all
   * of one length, and the per-year appreciation rates.
   */
  class MonthlyCosts {
    var monthlyBuyingCosts: array<real>
    var monthlyRentingCosts: array<real>
    var remainingLoanBalance: array<real>
    var cumulativePrincipalPaid: array<real>
    var cumulativeInterestPaid: array<real>
    var appreciationRates: seq<real>

    /** The arrays have one length, and there is at least one rate (the parser never returns an empty list). */
    predicate Valid()
      reads this
    {
      HasMonths(monthlyBuyingCosts.Length) && |appreciationRates| >= 1
    }

    /** Each of the five arrays holds `n` months. */
    predicate HasMonths(n: int)
      reads this
    {
      && monthlyBuyingCosts.Length == n
      && monthlyRentingCosts.Length == n
      && remainingLoanBalance.Length == n
      && cumulativePrincipalPaid.Length == n
      && cumulativeInterestPaid.Length == n
    }

    /** Empty arrays (Go's nil slices) and the parsed rates. */
    constructor(rates: seq<real>)
      requires |rates| >= 1
      ensures Valid()
      ensures appreciationRates == rates && monthlyBuyingCosts.Length == 0
    {
      monthlyBuyingCosts := new real[0];
      monthlyRentingCosts := new real[0];
      remainingLoanBalance := new real[0];
      cumulativePrincipalPaid := new real[0];
      cumulativeInterestPaid := new real[0];
      appreciationRates := rates;
    }

    /**
     * `populateMonthlyCosts`: replaces the five arrays by `maxMonths` months
     * of rent and recurring costs, inflated on each anniversary, and of the
     * loan schedule — interest on the balance, the rest of the payment to
     * principal — which stops after `loanDuration` months.
     */
    method PopulateMonthlyCosts(maxMonths: nat, sc: Scenario)
      modifies this
      ensures appreciationRates == old(appreciationRates)
      ensures fresh(monthlyBuyingCosts) && fresh(monthlyRentingCosts) && fresh(remainingLoanBalance)
      ensures fresh(cumulativePrincipalPaid) && fresh(cumulativeInterestPaid)
      ensures HasMonths(maxMonths)
      ensures forall i :: 0 <= i < maxMonths ==> monthlyRentingCosts[i] == RentingCost(sc, i)
      ensures forall i :: 0 <= i < maxMonths ==> monthlyBuyingCosts[i] == BuyingCost(sc, i)
      ensures forall i :: 0 <= i < maxMonths ==> remainingLoanBalance[i] == BalanceAt(sc, i)
      ensures forall i :: 0 <= i < maxMonths ==> cumulativePrincipalPaid[i] == PrincipalAt(sc, i)
      ensures forall i :: 0 <= i < maxMonths ==> cumulativeInterestPaid[i] == InterestAt(sc, i)
    {
      var buy, rent, balance, principal, interest := FillMonths(maxMonths, sc);
      forall j | 0 <= j < maxMonths
        ensures rent[j] == RentingCost(sc, j) && buy[j] == BuyingCost(sc, j) && balance[j] == BalanceAt(sc, j)
        ensures principal[j] == PrincipalAt(sc, j) && interest[j] == InterestAt(sc, j)
      {
        MonthStored(sc, j);
      }
      monthlyBuyingCosts := buy;
      monthlyRentingCosts := rent;
      remainingLoanBalance := balance;
      cumulativePrincipalPaid := principal;
      cumulativeInterestPaid := interest;
    }

    /**
     * `calculateSaleProceeds`: the property sold after `months` at its
     * appreciated value, with the balance of month `months - 1` (clamped to
     * the last month) paid off from the proceeds.
     */
    method CalculateSaleProceeds(months: int, purchasePrice: real, agentCommission: real, stagingCosts: real,
                                 taxFreeLimit: real, capitalGainsTax: real, fracPow: (real, real) -> real)
      returns (salePrice: real, totalSellingCosts: real, loanPayoff: real, capitalGains: real,
               taxOnGains: real, netProceeds: real)
      requires Valid() && months >= 1 && remainingLoanBalance.Length >= 1
      ensures salePrice == AssetValue(purchasePrice, appreciationRates, months, fracPow)
      ensures loanPayoff == remainingLoanBalance[PayoffIndex(months, remainingLoanBalance.Length)]
      ensures SaleProceeds(salePrice, totalSellingCosts, loanPayoff, capitalGains, taxOnGains, netProceeds)
           == Sale(salePrice, purchasePrice, agentCommission, stagingCosts, loanPayoff, taxFreeLimit, capitalGainsTax)
    {
      salePrice := Appreciate(purchasePrice, appreciationRates, months, fracPow);
      var agentFee := salePrice * (agentCommission / 100.0);
      totalSellingCosts := agentFee + stagingCosts;
      var monthIndex := months - 1;
      if monthIndex >= remainingLoanBalance.Length {
        monthIndex := remainingLoanBalance.Length - 1;
      }
      loanPayoff := remainingLoanBalance[monthIndex];
      capitalGains := salePrice - purchasePrice;
      var taxableGains := MaxZero(capitalGains - taxFreeLimit);
      taxOnGains := taxableGains * (capitalGainsTax / 100.0);
      netProceeds := salePrice - totalSellingCosts - loanPayoff - taxOnGains;
    }

    /**
     * `calculateNetWorth`: the appreciated value, the total spent on buying
     * (down payment plus every monthly cost so far), and the owner's net
     * worth — the sale's net proceeds when selling is included, otherwise
     * the value less the loan still owed.
     */
    method CalculateNetWorth(months: int, purchasePrice: real, downpayment: real, includeSelling: real,
                             agentCommission: real, stagingCosts: real, taxFreeLimit: real, capitalGainsTax: real,
                             fracPow: (real, real) -> real)
      returns (assetValue: real, totalExpenditure: real, netWorth: real)
      requires Valid() && 1 <= months <= monthlyBuyingCosts.Length
      ensures assetValue == AssetValue(purchasePrice, appreciationRates, months, fracPow)
      ensures totalExpenditure == downpayment + PrefixSum(monthlyBuyingCosts[..], months)
      ensures includeSelling > 0.0 ==>
        netWorth == Sale(assetValue, purchasePrice, agentCommission, stagingCosts,
                         remainingLoanBalance[months - 1], taxFreeLimit, capitalGainsTax).netProceeds
      ensures includeSelling <= 0.0 ==> netWorth == assetValue - remainingLoanBalance[months - 1]
    {
      assetValue := Appreciate(purchasePrice, appreciationRates, months, fracPow);
      totalExpenditure := downpayment;
      var i := 0;
      while i < months
        invariant 0 <= i <= months
        invariant totalExpenditure == downpayment + PrefixSum(monthlyBuyingCosts[..], i)
      {
        totalExpenditure := totalExpenditure + monthlyBuyingCosts[i];
        i := i + 1;
      }
      if includeSelling > 0.0 {
        var _, _, _, _, _, netProceeds := CalculateSaleProceeds(
          months, purchasePrice, agentCommission, stagingCosts, taxFreeLimit, capitalGainsTax, fracPow);
        netWorth := netProceeds;
      } else {
        var loanBalance := remainingLoanBalance[PayoffIndex(months, remainingLoanBalance.Length)];
        netWorth := assetValue - loanBalance;
      }
    }

    /**
     * `calculateRentingNetWorth`: the down payment less the deposit is
     * invested, each month's saving (buying cost less rent) is added and
     * the whole compounds at the monthly return; 75% of the deposit is
     * recovered at the end.
     */
    method CalculateRentingNetWorth(months: int, downpayment: real, rentDeposit: real, investmentReturnRate: real)
      returns (netWorth: real)
      requires Valid() && 0 <= months <= monthlyBuyingCosts.Length
      ensures netWorth == Invested(downpayment - rentDeposit, monthlyBuyingCosts[..], monthlyRentingCosts[..],
                                   investmentReturnRate / 100.0 / 12.0, months) + rentDeposit * 0.75
    {
      var investmentValue := downpayment - rentDeposit;
      var monthlyInvestmentRate := investmentReturnRate / 100.0 / 12.0;
      var i := 0;
      while i < months
        invariant 0 <= i <= months
        invariant investmentValue == Invested(downpayment - rentDeposit, monthlyBuyingCosts[..], monthlyRentingCosts[..],
                                              monthlyInvestmentRate, i)
      {
        var monthlySavings := monthlyBuyingCosts[i] - monthlyRentingCosts[i];
        investmentValue := investmentValue + monthlySavings;
        investmentValue := investmentValue * (1.0 + monthlyInvestmentRate);
        i := i + 1;
      }
      var recoverableDeposit := rentDeposit * 0.75;
      netWorth := investmentValue + recoverableDeposit;
    }

    /**
     * One row of `displayExpenditureTable`: all spent on buying and on
     * renting over `months`; their difference is the cumulative saving that
     * the net-worth table reports for the same period.
     */
    method ExpenditureRow(months: int, downpayment: real, rentDeposit: real)
      returns (buyingExpenditure: real, rentingExpenditure: real, difference: real)
      requires Valid() && 0 <= months <= monthlyBuyingCosts.Length
      ensures buyingExpenditure == downpayment + PrefixSum(monthlyBuyingCosts[..], months)
      ensures rentingExpenditure == rentDeposit + PrefixSum(monthlyRentingCosts[..], months)
      ensures difference == downpayment - rentDeposit + PrefixDiffSum(monthlyBuyingCosts[..], monthlyRentingCosts[..], months)
    {
      buyingExpenditure := downpayment;
      var i := 0;
      while i < months
        invariant 0 <= i <= months
        invariant buyingExpenditure == downpayment + PrefixSum(monthlyBuyingCosts[..], i)
      {
        buyingExpenditure := buyingExpenditure + monthlyBuyingCosts[i];
        i := i + 1;
      }
      rentingExpenditure := rentDeposit;
      i := 0;
      while i < months
        invariant 0 <= i <= months
        invariant rentingExpenditure == rentDeposit + PrefixSum(monthlyRentingCosts[..], i)
      {
        rentingExpenditure := rentingExpenditure + monthlyRentingCosts[i];
        i := i + 1;
      }
      difference := buyingExpenditure - rentingExpenditure;
      PrefixDiffSumSplits(monthlyBuyingCosts[..], monthlyRentingCosts[..], months);
    }

    /**
     * One row of `displayComparisonTable`. Buying net worth is the one
     * `CalculateNetWorth` gives; renting net worth is the invested savings plus
     * 75% of the deposit, and it splits into the raw savings, the market
     * return on them and that recoverable deposit. At a zero return rate there
     * is no market return; with savings every month and a non-negative rate it
     * is never negative.
     */
    method ComparisonRow(months: int, purchasePrice: real, downpayment: real, rentDeposit: real,
                         investmentReturnRate: real, includeSelling: real, agentCommission: real,
                         stagingCosts: real, taxFreeLimit: real, capitalGainsTax: real,
                         fracPow: (real, real) -> real)
      returns (assetValue: real, buyingNetWorth: real, cumulativeSavings: real, marketReturn: real,
               rentingNetWorth: real, difference: real)
      requires Valid() && 1 <= months <= monthlyBuyingCosts.Length
      ensures assetValue == AssetValue(purchasePrice, appreciationRates, months, fracPow)
      ensures includeSelling > 0.0 ==>
        buyingNetWorth == Sale(assetValue, purchasePrice, agentCommission, stagingCosts,
                               remainingLoanBalance[months - 1], taxFreeLimit, capitalGainsTax).netProceeds
      ensures includeSelling <= 0.0 ==> buyingNetWorth == assetValue - remainingLoanBalance[months - 1]
      ensures cumulativeSavings == downpayment - rentDeposit + PrefixDiffSum(monthlyBuyingCosts[..], monthlyRentingCosts[..], months)
      ensures rentingNetWorth == Invested(downpayment - rentDeposit, monthlyBuyingCosts[..], monthlyRentingCosts[..],
                                          investmentReturnRate / 100.0 / 12.0, months) + rentDeposit * 0.75
      ensures rentingNetWorth == cumulativeSavings + marketReturn + rentDeposit * 0.75
      ensures investmentReturnRate == 0.0 ==> marketReturn == 0.0
      ensures investmentReturnRate >= 0.0 && downpayment >= rentDeposit
              && (forall i :: 0 <= i < months ==> monthlyBuyingCosts[i] >= monthlyRentingCosts[i])
              ==> marketReturn >= 0.0
      ensures difference == rentingNetWorth - buyingNetWorth
    {
      var totalExpenditure;
      assetValue, totalExpenditure, buyingNetWorth := CalculateNetWorth(
        months, purchasePrice, downpayment, includeSelling,
        agentCommission, stagingCosts, taxFreeLimit, capitalGainsTax, fracPow);
      rentingNetWorth := CalculateRentingNetWorth(months, downpayment, rentDeposit, investmentReturnRate);

      cumulativeSavings := downpayment - rentDeposit;
      var i := 0;
      while i < months
        invariant 0 <= i <= months
        invariant cumulativeSavings == downpayment - rentDeposit + PrefixDiffSum(monthlyBuyingCosts[..], monthlyRentingCosts[..], i)
      {
        cumulativeSavings := cumulativeSavings + (monthlyBuyingCosts[i] - monthlyRentingCosts[i]);
        i := i + 1;
      }

      var recoverableDeposit := rentDeposit * 0.75;
      marketReturn := rentingNetWorth - cumulativeSavings - recoverableDeposit;
      difference := rentingNetWorth - buyingNetWorth;

      var buy, rent := monthlyBuyingCosts[..], monthlyRentingCosts[..];
      var g := investmentReturnRate / 100.0 / 12.0;
      if investmentReturnRate == 0.0 {
        InvestedWithoutReturn(downpayment - rentDeposit, buy, rent, months);
      }
      if investmentReturnRate >= 0.0 && downpayment >= rentDeposit
         && (forall j :: 0 <= j < months ==> monthlyBuyingCosts[j] >= monthlyRentingCosts[j]) {
        InvestedAtLeastSavings(downpayment - rentDeposit, buy, rent, g, months);
      }
    }
  }
}
