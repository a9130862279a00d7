/**
 * The fixed-payment mortgage of main.go: `calculateMonthlyPayment`'s closed
 * form, and the month-by-month recurrence that `populateMonthlyCosts` runs
 * (interest on the balance, the rest of the payment to principal).
 */
module Amortization {
  import opened Numeric

  /**
   * `calculateMonthlyPayment`: `principal / months` without interest,
   * otherwise `M = P * r * F / (F - 1)` with `F = (1 + r)^months`. A zero
   * rate spreads the principal evenly over the months.
   */
  function MonthlyPayment(principal: real, monthlyRate: real, months: int): (payment: real)
    requires months >= 1
    requires monthlyRate == 0.0 || Pow(1.0 + monthlyRate, months) != 1.0
    ensures monthlyRate == 0.0 ==> payment * (months as real) == principal
  {
    if monthlyRate == 0.0 then principal / (months as real)
    else
      var factor := Pow(1.0 + monthlyRate, months);
      principal * (monthlyRate * factor) / (factor - 1.0)
  }

  /** The balance after `k` payments: each month `b' = b - (payment - b * rate)`. */
  function Balance(principal: real, rate: real, payment: real, k: nat): real
  {
    if k == 0 then principal
    else
      var b := Balance(principal, rate, payment, k - 1);
      b - (payment - b * rate)
  }

  /** Interest charged in month `j` (0-based): the rate on the balance before that payment. */
  function InterestIn(principal: real, rate: real, payment: real, j: nat): real
  {
    Balance(principal, rate, payment, j) * rate
  }

  /** Total interest over the first `k` payments. */
  function InterestPaid(principal: real, rate: real, payment: real, k: nat): real
  {
    if k == 0 then 0.0 else InterestPaid(principal, rate, payment, k - 1) + InterestIn(principal, rate, payment, k - 1)
  }

  /** Total principal over the first `k` payments: what each payment leaves after interest. */
  function PrincipalPaid(principal: real, rate: real, payment: real, k: nat): real
  {
    if k == 0 then 0.0
    else PrincipalPaid(principal, rate, payment, k - 1) + (payment - InterestIn(principal, rate, payment, k - 1))
  }

  /** Principal repaid plus the balance still owed is always the amount borrowed. */
  lemma {:induction false} PrincipalPlusBalance(principal: real, rate: real, payment: real, k: nat)
    ensures PrincipalPaid(principal, rate, payment, k) + Balance(principal, rate, payment, k) == principal
  {
    if k > 0 {
      PrincipalPlusBalance(principal, rate, payment, k - 1);
    }
  }

  /** Every payment is split exactly into interest and principal: `k` payments sum to `k` times the payment. */
  lemma {:induction false} InterestPlusPrincipal(principal: real, rate: real, payment: real, k: nat)
    ensures InterestPaid(principal, rate, payment, k) + PrincipalPaid(principal, rate, payment, k) == Times(k, payment)
  {
    if k > 0 {
      InterestPlusPrincipal(principal, rate, payment, k - 1);
    }
  }

  lemma ClosedFormArithmetic(p: real, r: real, m: real, b: real, g: real, next: real, nextG: real)
    requires r * b == p * r * g - m * (g - 1.0)
    requires next == b - (m - b * r) && nextG == (1.0 + r) * g
    ensures r * next == p * r * nextG - m * (nextG - 1.0)
  {
    assert r * next == (r * b) * (1.0 + r) - r * m;
    assert (p * r * g - m * (g - 1.0)) * (1.0 + r) - r * m
        == p * r * ((1.0 + r) * g) - m * ((1.0 + r) * g - 1.0);
  }

  /** One month of the recurrence keeps the closed form. */
  lemma ClosedFormStep(principal: real, rate: real, payment: real, k: nat)
    requires k > 0
    requires rate * Balance(principal, rate, payment, k - 1)
          == principal * rate * Pow(1.0 + rate, k - 1) - payment * (Pow(1.0 + rate, k - 1) - 1.0)
    ensures rate * Balance(principal, rate, payment, k)
         == principal * rate * Pow(1.0 + rate, k) - payment * (Pow(1.0 + rate, k) - 1.0)
  {
    var b := Balance(principal, rate, payment, k - 1);
    var g := Pow(1.0 + rate, k - 1);
    ClosedFormArithmetic(principal, rate, payment, b, g, Balance(principal, rate, payment, k), Pow(1.0 + rate, k));
  }

  /** The closed form of the recurrence, multiplied through by the rate: `r*b_k = P*r*g^k - M*(g^k - 1)`. */
  lemma {:induction false} BalanceClosedForm(principal: real, rate: real, payment: real, k: nat)
    ensures rate * Balance(principal, rate, payment, k)
         == principal * rate * Pow(1.0 + rate, k) - payment * (Pow(1.0 + rate, k) - 1.0)
  {
    if k > 0 {
      BalanceClosedForm(principal, rate, payment, k - 1);
      ClosedFormStep(principal, rate, payment, k);
    }
  }

  /** Without interest every payment goes to principal. */
  lemma {:induction false} BalanceWithoutInterest(principal: real, payment: real, k: nat)
    ensures Balance(principal, 0.0, payment, k) == principal - Times(k, payment)
  {
    if k > 0 {
      BalanceWithoutInterest(principal, payment, k - 1);
    }
  }

  lemma QuotientTimes(x: real, y: real)
    requires y != 0.0
    ensures x / y * y == x
  {
  }

  /**
   * The formula in `calculateMonthlyPayment` is the payment that retires the
   * loan: `months` steps of the balance recurrence end at exactly zero.
   */
  lemma AmortizationCloses(principal: real, monthlyRate: real, months: int)
    requires months >= 1
    requires monthlyRate == 0.0 || Pow(1.0 + monthlyRate, months) != 1.0
    ensures Balance(principal, monthlyRate, MonthlyPayment(principal, monthlyRate, months), months) == 0.0
  {
    var payment := MonthlyPayment(principal, monthlyRate, months);
    if monthlyRate == 0.0 {
      BalanceWithoutInterest(principal, payment, months);
      TimesIsProduct(months, payment);
    } else {
      var factor := Pow(1.0 + monthlyRate, months);
      var top := principal * (monthlyRate * factor);
      QuotientTimes(top, factor - 1.0);
      assert payment * (factor - 1.0) == top;
      BalanceClosedForm(principal, monthlyRate, payment, months);
      var b := Balance(principal, monthlyRate, payment, months);
      assert monthlyRate * b == 0.0;
      NonZeroFactor(monthlyRate, b);
    }
  }

  lemma NonZeroFactor(r: real, b: real)
    requires r != 0.0 && r * b == 0.0
    ensures b == 0.0
  {
  }

  /** Once the loan is retired, all of the principal has been repaid. */
  lemma AllPrincipalRepaid(principal: real, monthlyRate: real, months: int)
    requires months >= 1
    requires monthlyRate == 0.0 || Pow(1.0 + monthlyRate, months) != 1.0
    ensures PrincipalPaid(principal, monthlyRate, MonthlyPayment(principal, monthlyRate, months), months) == principal
  {
    AmortizationCloses(principal, monthlyRate, months);
    PrincipalPlusBalance(principal, monthlyRate, MonthlyPayment(principal, monthlyRate, months), months);
  }
}
