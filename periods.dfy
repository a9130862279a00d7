/**
 * The display periods of main.go's tables (`getPeriods`): yearly marks up to
 * ten years, optionally 15, 20 and 30 years, with the loan term inserted in
 * order under an `X` label.
 */
module Periods {
  import opened Wrappers
  import opened Numeric
  import opened GoStrings
  import Inputs

  datatype Period = Period(name: string, months: int)

  /** Month counts strictly increase from each period to the next. */
  predicate Ascending(s: seq<Period>)
  {
    forall i :: 0 < i < |s| ==> s[i - 1].months < s[i].months
  }

  /** Ascending lists are ordered pairwise, so no month count appears twice. */
  lemma {:induction false} AscendingIsIncreasing(s: seq<Period>)
    requires Ascending(s)
    ensures forall i, j :: 0 <= i < j < |s| ==> s[i].months < s[j].months
    decreases |s|
  {
    if |s| > 1 {
      var init := s[..|s| - 1];
      assert Ascending(init);
      AscendingIsIncreasing(init);
      forall i, j | 0 <= i < j < |s|
        ensures s[i].months < s[j].months
      {
        if j < |s| - 1 {
          assert s[i] == init[i] && s[j] == init[j];
        } else if i < j - 1 {
          assert s[i] == init[i] && s[j - 1] == init[j - 1];
        }
      }
    }
  }

  const BasePeriods: seq<Period> := [
    Period("  1y", 12), Period("  2y", 24), Period("  3y", 36), Period("  4y", 48), Period("  5y", 60),
    Period("  6y", 72), Period("  7y", 84), Period("  8y", 96), Period("  9y", 108), Period(" 10y", 120)
  ]

  const ExtendedPeriods: seq<Period> := [Period(" 15y", 180), Period(" 20y", 240), Period(" 30y", 360)]

  /** One to ten years, then 15, 20 and 30 years when the long horizon is asked for. */
  function StandardPeriods(include30Year: bool): (s: seq<Period>)
    ensures Ascending(s)
    ensures forall i :: 0 <= i < |s| ==> 12 <= s[i].months <= 360
    ensures |s| == if include30Year then 13 else 10
  {
    if include30Year then BasePeriods + ExtendedPeriods else BasePeriods
  }

  /** `"X %dy"` for a whole number of years, otherwise `"X %dy%dm"`, with Go's truncating `/` and `%`. */
  function LoanTermLabel(loanDuration: int): string
  {
    var years := TruncDiv(loanDuration, 12);
    if TruncMod(loanDuration, 12) == 0 then "X " + Itoa(years) + "y"
    else "X " + Itoa(years) + "y" + Itoa(TruncMod(loanDuration, 12)) + "m"
  }

  /** The label text after `X ` for a positive duration, written with ordinary division. */
  function LabelTail(loanDuration: nat): string
  {
    if loanDuration % 12 == 0 then Itoa(loanDuration / 12) + "y"
    else Itoa(loanDuration / 12) + "y" + Itoa(loanDuration % 12) + "m"
  }

  lemma LabelSplits(loanDuration: int)
    requires loanDuration > 0
    ensures LoanTermLabel(loanDuration) == "X " + LabelTail(loanDuration)
  {
    assert TruncDiv(loanDuration, 12) == loanDuration / 12;
    assert TruncMod(loanDuration, 12) == loanDuration % 12;
  }

  lemma WholeYearsTailParses(loanDuration: int)
    requires 0 < loanDuration <= MaxInt64 && loanDuration % 12 == 0
    ensures Inputs.ParseDuration(LabelTail(loanDuration)) == Ok(loanDuration)
  {
    var years := loanDuration / 12;
    assert years * 12 == loanDuration;
    Inputs.ParseYears(years);
  }

  lemma YearsAndMonthsTailParses(loanDuration: int)
    requires 0 < loanDuration <= MaxInt64 && loanDuration % 12 != 0
    ensures Inputs.ParseDuration(LabelTail(loanDuration)) == Ok(loanDuration)
  {
    var years, months := loanDuration / 12, loanDuration % 12;
    assert years * 12 + months == loanDuration;
    Inputs.ParseYearsAndMonths(years, months);
  }

  /** The loan-term label, without its `X ` marker, reads back as the loan duration. */
  lemma LoanTermLabelParses(loanDuration: int)
    requires 0 < loanDuration <= MaxInt64
    ensures var text := LoanTermLabel(loanDuration);
      |text| > 2 && Inputs.ParseDuration(text[2..]) == Ok(loanDuration)
  {
    LabelSplits(loanDuration);
    var tail := LabelTail(loanDuration);
    assert ("X " + tail)[2..] == tail;
    if loanDuration % 12 == 0 {
      WholeYearsTailParses(loanDuration);
    } else {
      YearsAndMonthsTailParses(loanDuration);
    }
  }

  /**
   * `getPeriods`: the standard periods in order, with the loan term inserted
   * before the first longer period, or in place of an equal one, or at the
   * end; without a loan, the standard periods alone.
   */
  method GetPeriods(loanDuration: int, include30Year: bool) returns (periods: seq<Period>)
    ensures Ascending(periods)
    ensures loanDuration <= 0 ==> periods == StandardPeriods(include30Year)
    ensures loanDuration > 0 ==> Period(LoanTermLabel(loanDuration), loanDuration) in periods
    ensures loanDuration > 0 ==> forall p ::
      p in periods <==> (p in StandardPeriods(include30Year) && p.months != loanDuration)
                        || p == Period(LoanTermLabel(loanDuration), loanDuration)
  {
    var standard := StandardPeriods(include30Year);
    assert WellFormed(standard);
    periods := InsertLoanTerm(standard, Period(LoanTermLabel(loanDuration), loanDuration));
  }

  /**
   * The state of `getPeriods`' loop after the first `k` standard periods:
   * the periods written so far and the `inserted` flag.
   */
  function Scan(standard: seq<Period>, loanPeriod: Period, k: nat): (seq<Period>, bool)
    requires k <= |standard|
  {
    if k == 0 then ([], false)
    else
      var (before, inserted) := Scan(standard, loanPeriod, k - 1);
      var period := standard[k - 1];
      var d := loanPeriod.months;
      var (early, flag) :=
        if !inserted && d < period.months && d > 0 then (before + [loanPeriod], true) else (before, inserted);
      if period.months == d then (early + [loanPeriod], true) else (early + [period], flag)
  }

  /** Standard lists as `getPeriods` receives them: ascending and positive. */
  predicate WellFormed(standard: seq<Period>)
  {
    Ascending(standard) && forall i :: 0 <= i < |standard| ==> standard[i].months > 0
  }

  /** The last period written has the month count of the last standard period read, and the flag says whether the loan term has been placed. */
  lemma {:induction false} ScanShape(standard: seq<Period>, loanPeriod: Period, k: nat)
    requires k <= |standard| && WellFormed(standard)
    ensures var (periods, inserted) := Scan(standard, loanPeriod, k);
      && (k == 0 <==> periods == [])
      && (k > 0 ==> periods[|periods| - 1].months == standard[k - 1].months)
      && (inserted <==> loanPeriod.months > 0 && k > 0 && loanPeriod.months <= standard[k - 1].months)
  {
    if k > 0 {
      ScanShape(standard, loanPeriod, k - 1);
      if k > 1 {
        assert standard[k - 2].months < standard[k - 1].months;
      }
    }
  }

  /** The periods written so far are ascending. */
  lemma {:induction false} ScanAscending(standard: seq<Period>, loanPeriod: Period, k: nat)
    requires k <= |standard| && WellFormed(standard)
    ensures Ascending(Scan(standard, loanPeriod, k).0)
  {
    if k > 0 {
      ScanAscending(standard, loanPeriod, k - 1);
      ScanShape(standard, loanPeriod, k - 1);
      if k > 1 {
        assert standard[k - 2].months < standard[k - 1].months;
      }
    }
  }

  /** Without a loan, the standard periods are copied unchanged. */
  lemma {:induction false} ScanWithoutLoan(standard: seq<Period>, loanPeriod: Period, k: nat)
    requires k <= |standard| && WellFormed(standard) && loanPeriod.months <= 0
    ensures Scan(standard, loanPeriod, k).0 == standard[..k]
  {
    if k > 0 {
      ScanWithoutLoan(standard, loanPeriod, k - 1);
      assert standard[..k] == standard[..k - 1] + [standard[k - 1]];
    }
  }

  /** With a loan, the periods written are the standard ones read, except one of equal length, plus the loan term once placed. */
  lemma {:induction false} ScanMembers(standard: seq<Period>, loanPeriod: Period, k: nat)
    requires k <= |standard| && WellFormed(standard) && loanPeriod.months > 0
    ensures var (periods, inserted) := Scan(standard, loanPeriod, k);
      forall p :: p in periods <==> (p in standard[..k] && p.months != loanPeriod.months) || (inserted && p == loanPeriod)
  {
    if k > 0 {
      ScanMembers(standard, loanPeriod, k - 1);
      assert standard[..k] == standard[..k - 1] + [standard[k - 1]];
    }
  }

  /** The loop of `getPeriods`, over any ascending list of positive periods. */
  method InsertLoanTerm(standard: seq<Period>, loanPeriod: Period) returns (periods: seq<Period>)
    requires WellFormed(standard)
    ensures Ascending(periods)
    ensures loanPeriod.months <= 0 ==> periods == standard
    ensures loanPeriod.months > 0 ==> loanPeriod in periods
    ensures loanPeriod.months > 0 ==> forall p ::
      p in periods <==> (p in standard && p.months != loanPeriod.months) || p == loanPeriod
  {
    var loanDuration := loanPeriod.months;
    periods := [];
    var inserted := false;
    for k := 0 to |standard|
      invariant (periods, inserted) == Scan(standard, loanPeriod, k)
    {
      var period := standard[k];
      if !inserted && loanDuration < period.months && loanDuration > 0 {
        periods := periods + [loanPeriod];
        inserted := true;
      }
      if period.months == loanDuration {
        periods := periods + [loanPeriod];
        inserted := true;
      } else {
        periods := periods + [period];
      }
    }
    var n := |standard|;
    assert standard[..n] == standard;
    ScanShape(standard, loanPeriod, n);
    ScanAscending(standard, loanPeriod, n);
    if loanDuration <= 0 {
      ScanWithoutLoan(standard, loanPeriod, n);
    } else {
      ScanMembers(standard, loanPeriod, n);
    }
    if !inserted && loanDuration > 0 {
      periods := periods + [loanPeriod];
    }
  }
}
