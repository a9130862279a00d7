/**
 * The string helpers of main.go that turn the form's raw text into numbers:
 * amounts with k/m/b suffixes and an optional `%`, comma-separated
 * appreciation rates, durations such as `5y6m`, and thousands separators.
 *
 * `strconv.ParseFloat` is not modelled: every operation that needs it takes
 * it as a parameter `parseFloat`, a partial function from text to a number.
 */
module Inputs {
  import opened Wrappers
  import opened Numeric
  import opened GoStrings

  datatype ParseError =
    | InvalidAmount            // strconv.ParseFloat rejected the numeric part
    | InvalidRate(part: string) // "invalid rate '<part>': ..."
    | InvalidYearFormat
    | InvalidMonthFormat
    | NonPositiveDuration

  // ---------------------------------------------------------------------
  // parseAmount (main.go:307-341)
  // ---------------------------------------------------------------------

  /** The multiplier a trailing suffix letter stands for. */
  function SuffixMultiplier(c: char): real
  {
    if c == 'k' then 1000.0
    else if c == 'm' then 1000000.0
    else if c == 'b' then 1000000000.0
    else 1.0
  }

  /**
   * `parseAmount`: blank input is 0; otherwise one trailing `%` is dropped,
   * a trailing `k`, `m` or `b` scales the number by a thousand, a million or
   * a billion, and what remains must be a number.
   */
  function ParseAmount(input: string, parseFloat: string -> Option<real>): (r: Result<real, ParseError>)
    ensures TrimSpace(input) == [] ==> r == Ok(0.0)
    ensures r.Err? ==> r.error == InvalidAmount
  {
    var s := ToLower(TrimSpace(input));
    if s == [] then Ok(0.0) else ParseScaled(TrimSpace(TrimSuffix(s, '%')), parseFloat)
  }

  /** The second half of `parseAmount`: a `k`, `m` or `b` suffix, then the number itself. */
  function ParseScaled(t: string, parseFloat: string -> Option<real>): (r: Result<real, ParseError>)
    ensures r.Err? ==> r.error == InvalidAmount
  {
    var suffixed := HasSuffix(t, 'k') || HasSuffix(t, 'm') || HasSuffix(t, 'b');
    var multiplier := if suffixed then SuffixMultiplier(t[|t| - 1]) else 1.0;
    var numStr := if suffixed then t[..|t| - 1] else t;
    Scaled(parseFloat(TrimSpace(numStr)), multiplier)
  }

  /** A number as the user types it: no surrounding blanks, lower case, no suffix of its own. */
  predicate PlainNumeral(t: string)
  {
    && t != []
    && !IsSpace(t[0]) && !IsSpace(t[|t| - 1])
    && ToLower(t) == t
    && t[|t| - 1] !in "kmb%"
  }

  function Scaled(v: Option<real>, multiplier: real): Result<real, ParseError>
  {
    match v
    case None => Err(InvalidAmount)
    case Some(x) => Ok(x * multiplier)
  }

  lemma ToLowerAppend(a: string, b: string)
    ensures ToLower(a + b) == ToLower(a) + ToLower(b)
  {
  }

  lemma LowerKeepsNonSpace(c: char)
    requires !IsSpace(c)
    ensures !IsSpace(LowerChar(c))
  {
  }

  /** Lower-casing keeps a string free of blanks at its ends. */
  lemma LowerKeepsTrimmed(u: string)
    requires u != [] && !IsSpace(u[0]) && !IsSpace(u[|u| - 1])
    ensures TrimSpace(ToLower(u)) == ToLower(u)
  {
    var l := ToLower(u);
    LowerKeepsNonSpace(u[0]);
    LowerKeepsNonSpace(u[|u| - 1]);
    assert l[0] == LowerChar(u[0]) && l[|l| - 1] == LowerChar(u[|u| - 1]);
    TrimSpaceNoop(l);
  }

  /** Text without blanks at either end or a final `%` reaches the suffix stage lower-cased. */
  lemma ParseAmountNormalised(u: string, parseFloat: string -> Option<real>)
    requires u != [] && !IsSpace(u[0]) && !IsSpace(u[|u| - 1]) && u[|u| - 1] != '%'
    ensures ParseAmount(u, parseFloat) == ParseScaled(ToLower(u), parseFloat)
  {
    TrimSpaceNoop(u);
    var l := ToLower(u);
    LowerKeepsTrimmed(u);
    assert l[|l| - 1] == LowerChar(u[|u| - 1]);
    assert TrimSuffix(l, '%') == l;
  }

  lemma TrimPercent(u: string)
    requires u != [] && !IsSpace(u[0]) && !IsSpace(u[|u| - 1])
    ensures TrimSpace(u + "%") == u + "%"
  {
    var w := u + "%";
    assert w[0] == u[0] && w[|w| - 1] == '%';
    TrimSpaceNoop(w);
  }

  lemma LowerPercent(u: string)
    ensures ToLower(u + "%") == ToLower(u) + "%"
  {
    ToLowerAppend(u, "%");
  }

  lemma NormalisePercent(u: string)
    requires u != [] && !IsSpace(u[0]) && !IsSpace(u[|u| - 1])
    ensures ToLower(TrimSpace(u + "%")) == ToLower(u) + "%"
  {
    TrimPercent(u);
    LowerPercent(u);
  }

  /** A trailing `%` is dropped before the suffix stage. */
  lemma ParseAmountPercent(u: string, parseFloat: string -> Option<real>)
    requires u != [] && !IsSpace(u[0]) && !IsSpace(u[|u| - 1])
    ensures ParseAmount(u + "%", parseFloat) == ParseScaled(ToLower(u), parseFloat)
  {
    var l := ToLower(u);
    NormalisePercent(u);
    assert TrimSuffix(l + "%", '%') == l;
    LowerKeepsTrimmed(u);
  }

  lemma ScaledSuffix(t: string, suffix: char, parseFloat: string -> Option<real>)
    requires PlainNumeral(t) && suffix in "kmb"
    ensures ParseScaled(t + [suffix], parseFloat) == Scaled(parseFloat(t), SuffixMultiplier(suffix))
  {
    TrimSpaceNoop(t);
    assert (t + [suffix])[..|t|] == t;
  }

  lemma ScaledPlain(t: string, parseFloat: string -> Option<real>)
    requires PlainNumeral(t)
    ensures ParseScaled(t, parseFloat) == Scaled(parseFloat(t), 1.0)
  {
    TrimSpaceNoop(t);
  }

  lemma LowerSuffix(t: string, c: char)
    requires ToLower(t) == t
    ensures ToLower(t + [c]) == t + [LowerChar(c)]
  {
    ToLowerAppend(t, [c]);
  }

  /** A plain number is read as itself, with or without a trailing `%`. */
  lemma ParseAmountPlain(t: string, parseFloat: string -> Option<real>)
    requires PlainNumeral(t)
    ensures ParseAmount(t, parseFloat) == Scaled(parseFloat(t), 1.0)
    ensures ParseAmount(t + "%", parseFloat) == Scaled(parseFloat(t), 1.0)
  {
    ScaledPlain(t, parseFloat);
    ParseAmountNormalised(t, parseFloat);
    ParseAmountPercent(t, parseFloat);
  }

  /**
   * How `parseAmount` reads a number typed with a suffix: `k`, `m` and `b`,
   * in either case, multiply by 10^3, 10^6 and 10^9, also before a `%`.
   */
  lemma ParseAmountSuffix(t: string, suffix: char, parseFloat: string -> Option<real>)
    requires PlainNumeral(t) && suffix in "kmbKMB"
    ensures ParseAmount(t + [suffix], parseFloat) == Scaled(parseFloat(t), SuffixMultiplier(LowerChar(suffix)))
    ensures ParseAmount(t + [suffix] + "%", parseFloat) == Scaled(parseFloat(t), SuffixMultiplier(LowerChar(suffix)))
  {
    ScaledSuffix(t, LowerChar(suffix), parseFloat);
    LowerSuffix(t, suffix);
    ParseAmountNormalised(t + [suffix], parseFloat);
    ParseAmountPercent(t + [suffix], parseFloat);
  }

  // ---------------------------------------------------------------------
  // parseAppreciationRates (main.go:345-368)
  // ---------------------------------------------------------------------

  /**
   * `parseAppreciationRates`: blank input means a single 0% rate; otherwise
   * every comma-separated part is an amount, and the first part that is not
   * one makes the whole list an error. A successful list is never empty, so
   * "the last rate applies to all later years" is always defined.
   */
  method ParseAppreciationRates(input: string, parseFloat: string -> Option<real>)
    returns (r: Result<seq<real>, ParseError>)
    ensures r.Ok? ==> |r.value| >= 1
    ensures TrimSpace(input) == [] ==> r == Ok([0.0])
    ensures TrimSpace(input) != [] ==> RatesOf(Split(TrimSpace(input), ','), p => ParseAmount(p, parseFloat), r)
  {
    var trimmed := TrimSpace(input);
    if trimmed == [] {
      return Ok([0.0]);
    }
    r := ParseRateList(Split(trimmed, ','), p => ParseAmount(p, parseFloat));
  }

  /**
   * What parsing a list of rates yields: every part parsed in order, or the
   * first part that is not an amount.
   */
  predicate RatesOf(parts: seq<string>, parse: string -> Result<real, ParseError>, r: Result<seq<real>, ParseError>)
  {
    && (r.Ok? <==> forall i :: 0 <= i < |parts| ==> parse(parts[i]).Ok?)
    && (r.Ok? ==> |r.value| == |parts|
                  && forall i :: 0 <= i < |parts| ==> parse(parts[i]) == Ok(r.value[i]))
    && (r.Err? ==> exists k :: 0 <= k < |parts|
                     && parse(parts[k]).Err?
                     && (forall j :: 0 <= j < k ==> parse(parts[j]).Ok?)
                     && r.error == InvalidRate(TrimSpace(parts[k])))
  }

  method ParseRateList(parts: seq<string>, parse: string -> Result<real, ParseError>)
    returns (r: Result<seq<real>, ParseError>)
    ensures RatesOf(parts, parse, r)
    ensures r.Ok? ==> |r.value| == |parts|
  {
    var rates: seq<real> := [];
    for i := 0 to |parts|
      invariant |rates| == i
      invariant forall j :: 0 <= j < i ==> parse(parts[j]) == Ok(rates[j])
    {
      var rate := parse(parts[i]);
      if rate.Err? {
        return Err(InvalidRate(TrimSpace(parts[i])));
      }
      rates := rates + [rate.value];
    }
    return Ok(rates);
  }

  // ---------------------------------------------------------------------
  // parseDuration (main.go:486-520)
  // ---------------------------------------------------------------------

  /**
   * `parseDuration`: the text before the first `y` is a number of years and
   * the text before the next `m` a number of months; either part may be
   * absent (counting 0), anything after the `m` is ignored, and the total
   * `years*12 + months` (a Go `int`, so it wraps) must be positive.
   */
  function ParseDuration(duration: string): (r: Result<int, ParseError>)
    ensures r.Ok? ==> r.value > 0
    ensures r.Err? ==> r.error in {InvalidYearFormat, InvalidMonthFormat, NonPositiveDuration}
  {
    var d := ToLower(duration);
    var yIndex := Index(d, 'y');
    if yIndex != -1 && Atoi(d[..yIndex]).err.Some? then Err(InvalidYearFormat)
    else if yIndex != -1 then ParseMonthsAfter(Atoi(d[..yIndex]).value, d[yIndex + 1..])
    else ParseMonthsAfter(0, d)
  }

  /** The second half of `parseDuration`: the months before the first `m`, then the total. */
  function ParseMonthsAfter(years: int, rest: string): (r: Result<int, ParseError>)
    ensures r.Ok? ==> r.value > 0
    ensures r.Err? ==> r.error in {InvalidMonthFormat, NonPositiveDuration}
  {
    var mIndex := Index(rest, 'm');
    if mIndex != -1 && Atoi(rest[..mIndex]).err.Some? then Err(InvalidMonthFormat)
    else
      var months := if mIndex != -1 then Atoi(rest[..mIndex]).value else 0;
      var totalMonths := Wrap64(years * 12 + months);
      if totalMonths <= 0 then Err(NonPositiveDuration) else Ok(totalMonths)
  }

  /** The outcome of a duration of `total` months that fits a Go `int`. */
  function DurationOutcome(total: int): Result<int, ParseError>
  {
    if total > 0 then Ok(total) else Err(NonPositiveDuration)
  }

  lemma ToLowerDecimal(s: string)
    requires forall i :: 0 <= i < |s| ==> s[i] == '-' || IsDigit(s[i]) || s[i] == 'y' || s[i] == 'm'
    ensures ToLower(s) == s
  {
  }

  /** Cutting `a + [c] + b` at its first `c`, when `a` holds none, gives back `a` and `b`. */
  lemma CutAtFirst(a: string, c: char, b: string)
    requires c !in a
    ensures var s := a + [c] + b; Index(s, c) == |a| && s[..|a|] == a && s[|a| + 1..] == b
  {
    var s := a + [c] + b;
    assert s[|a|] == c && s[..|a|] == a;
    assert s[|a| + 1..] == b;
  }

  /** A number followed by a unit letter is already lower case. */
  lemma LowerNumberWithUnit(n: int, unit: string)
    requires unit == "y" || unit == "m"
    ensures ToLower(Itoa(n) + unit) == Itoa(n) + unit
  {
    ItoaChars(n);
    ToLowerDecimal(Itoa(n) + unit);
  }

  /** A lower-case duration with no `y` is all months. */
  lemma DurationWithoutYears(d: string)
    requires ToLower(d) == d && 'y' !in d
    ensures ParseDuration(d) == ParseMonthsAfter(0, d)
  {
  }

  /** A lower-case duration `<Y>y<rest>` with a well-formed `Y` continues with the months in `rest`. */
  lemma DurationWithYears(ys: string, rest: string)
    requires ToLower(ys + "y" + rest) == ys + "y" + rest
    requires 'y' !in ys && Atoi(ys).err.None?
    ensures ParseDuration(ys + "y" + rest) == ParseMonthsAfter(Atoi(ys).value, rest)
  {
    CutAtFirst(ys, 'y', rest);
    assert ys + "y" + rest == ys + ['y'] + rest;
  }

  /** Nothing after the `y`: no months. */
  lemma NoMonthsAfter(years: int)
    requires InInt64(years * 12)
    ensures ParseMonthsAfter(years, []) == DurationOutcome(years * 12)
  {
  }

  /** `"<M>m"` after the years: `12*Y + M` months. */
  lemma MonthsAfter(years: int, months: int)
    requires InInt64(months) && InInt64(years * 12 + months)
    ensures ParseMonthsAfter(years, Itoa(months) + "m") == DurationOutcome(years * 12 + months)
  {
    var ms := Itoa(months);
    AtoiItoa(months);
    ItoaHasNoLetter(months, 'm');
    CutAtFirst(ms, 'm', []);
    assert ms + ['m'] + [] == ms + "m";
  }

  /** `"<Y>y<M>m"` is `12*Y + M` months, an error when not positive. */
  lemma ParseYearsAndMonths(years: int, months: int)
    requires InInt64(years) && InInt64(months) && InInt64(years * 12 + months)
    ensures ParseDuration(Itoa(years) + "y" + Itoa(months) + "m") == DurationOutcome(years * 12 + months)
  {
    var ys, rest := Itoa(years), Itoa(months) + "m";
    AtoiItoa(years);
    ItoaHasNoLetter(years, 'y');
    LowerNumberWithUnit(years, "y");
    LowerNumberWithUnit(months, "m");
    ToLowerAppend(ys + "y", rest);
    assert ys + "y" + rest == Itoa(years) + "y" + Itoa(months) + "m";
    DurationWithYears(ys, rest);
    MonthsAfter(years, months);
  }

  /** `"<Y>y"` is `12*Y` months, an error when not positive. */
  lemma ParseYears(years: int)
    requires InInt64(years) && InInt64(years * 12)
    ensures ParseDuration(Itoa(years) + "y") == DurationOutcome(years * 12)
  {
    var ys := Itoa(years);
    AtoiItoa(years);
    ItoaHasNoLetter(years, 'y');
    LowerNumberWithUnit(years, "y");
    assert ys + "y" + [] == ys + "y";
    DurationWithYears(ys, []);
    NoMonthsAfter(years);
  }

  /** `"<M>m"` is `M` months, an error when not positive. */
  lemma ParseMonths(months: int)
    requires InInt64(months)
    ensures ParseDuration(Itoa(months) + "m") == DurationOutcome(months)
  {
    ItoaHasNoLetter(months, 'y');
    LowerNumberWithUnit(months, "m");
    DurationWithoutYears(Itoa(months) + "m");
    MonthsAfter(0, months);
  }

  /** A years part that is not an integer is rejected, whatever follows the `y`. */
  lemma BadYearsPart(ys: string, rest: string)
    requires ToLower(ys + "y" + rest) == ys + "y" + rest
    requires 'y' !in ys && Atoi(ys).err.Some?
    ensures ParseDuration(ys + "y" + rest) == Err(InvalidYearFormat)
  {
    CutAtFirst(ys, 'y', rest);
    assert ys + "y" + rest == ys + ['y'] + rest;
  }

  /** Without a `y`, a months part that is not an integer is rejected. */
  lemma BadMonthsPart(ms: string, rest: string)
    requires ToLower(ms + "m" + rest) == ms + "m" + rest
    requires 'y' !in ms + "m" + rest && 'm' !in ms && Atoi(ms).err.Some?
    ensures ParseDuration(ms + "m" + rest) == Err(InvalidMonthFormat)
  {
    DurationWithoutYears(ms + "m" + rest);
    CutAtFirst(ms, 'm', rest);
    assert ms + "m" + rest == ms + ['m'] + rest;
  }

  // ---------------------------------------------------------------------
  // formatNumber (main.go:471-483)
  // ---------------------------------------------------------------------

  /** The rule of formatNumber: a comma before character `i` when `i > 0` and a multiple of 3 characters remain. */
  predicate CommaBefore(len: nat, i: nat)
  {
    i > 0 && (len - i) % 3 == 0
  }

  /** `text[i..]` with the commas that rule puts into it. */
  function Grouped(text: string, i: nat): string
    requires i <= |text|
    decreases |text| - i
  {
    if i == |text| then ""
    else (if CommaBefore(|text|, i) then "," else "") + [text[i]] + Grouped(text, i + 1)
  }

  function StripCommas(s: string): string
  {
    if s == [] then "" else (if s[0] == ',' then "" else [s[0]]) + StripCommas(s[1..])
  }

  lemma StripCommasAppend(a: string, b: string)
    ensures StripCommas(a + b) == StripCommas(a) + StripCommas(b)
  {
    if a != [] {
      assert (a + b)[1..] == a[1..] + b;
    } else {
      assert a + b == b;
    }
  }

  /** Grouping only adds commas: taking them out again gives back the text. */
  lemma {:induction false} StripGrouped(text: string, i: nat)
    requires i <= |text|
    requires ',' !in text
    ensures StripCommas(Grouped(text, i)) == text[i..]
    decreases |text| - i
  {
    if i < |text| {
      StripGrouped(text, i + 1);
      var c := if CommaBefore(|text|, i) then "," else "";
      StripCommasAppend(c + [text[i]], Grouped(text, i + 1));
      StripCommasAppend(c, [text[i]]);
      assert text[i..] == [text[i]] + text[i + 1..];
    }
  }

  /** The loop of `formatNumber`: writes `text` after `prefix`, a comma before every third character from the right. */
  method AppendGrouped(prefix: string, text: string) returns (s: string)
    ensures s == prefix + Grouped(text, 0)
  {
    s := prefix;
    for i := 0 to |text|
      invariant s + Grouped(text, i) == prefix + Grouped(text, 0)
    {
      if i > 0 && (|text| - i) % 3 == 0 {
        s := s + ",";
      }
      s := s + [text[i]];
    }
  }

  /**
   * `formatNumber` as written: the decimal text of `num` (sign included)
   * with a comma before every position that has a multiple of three
   * characters after it.
   */
  method FormatNumber(num: int) returns (s: string)
    ensures s == Grouped(Itoa(num), 0)
    ensures StripCommas(s) == Itoa(num)
  {
    var numStr := Itoa(num);
    s := AppendGrouped("", numStr);
    StripGrouped(numStr, 0);
  }

  /**
   * The flaw in `formatNumber`: the minus sign is counted as a digit, so a
   * negative number whose digit count is a multiple of three gets a comma
   * straight after the sign.
   */
  lemma FormatNumberCommaAfterSign(n: nat)
    requires n > 0 && |NatDigits(n)| % 3 == 0
    ensures var s := Grouped(Itoa(-(n as int)), 0); |s| >= 2 && s[0] == '-' && s[1] == ','
  {
    var text := Itoa(-(n as int));
    assert text == "-" + NatDigits(n);
    assert Grouped(text, 0) == [text[0]] + Grouped(text, 1);
  }

  /** The smallest such input: `formatNumber(-123)` is `"-,123"`. */
  lemma FormatNumberMinus123()
    ensures Grouped(Itoa(-123), 0) == "-,123"
  {
    assert NatDigits(123) == "123";
    var short := "-123";
    assert Grouped(short, 4) == "";
    assert Grouped(short, 3) == "3";
    assert Grouped(short, 2) == "23";
    assert Grouped(short, 1) == ",123";
  }

  /** Every comma that grouping a digit string inserts comes right after a digit. */
  lemma {:induction false} GroupedCommaFollowsDigit(digits: string, i: nat)
    requires i <= |digits|
    requires forall k :: 0 <= k < |digits| ==> IsDigit(digits[k])
    ensures Grouped(digits, i) != [] && Grouped(digits, i)[0] == ',' ==> i > 0
    ensures forall j :: 0 < j < |Grouped(digits, i)| && Grouped(digits, i)[j] == ',' ==> IsDigit(Grouped(digits, i)[j - 1])
    decreases |digits| - i
  {
    if i < |digits| {
      GroupedCommaFollowsDigit(digits, i + 1);
      var g := Grouped(digits, i);
      var tail := Grouped(digits, i + 1);
      var c := if CommaBefore(|digits|, i) then "," else "";
      assert g == c + [digits[i]] + tail;
      forall j | 0 < j < |g| && g[j] == ','
        ensures IsDigit(g[j - 1])
      {
        var n := |c|;
        assert g[n] == digits[i] && IsDigit(digits[i]);
        assert j != n;
        assert j > n;
        var k := j - n - 1;
        assert g[j] == tail[k];
        assert 0 <= k < |tail| && tail[k] == ',';
        if k > 0 {
          assert IsDigit(tail[k - 1]);
          assert g[j - 1] == tail[k - 1];
        } else {
          assert j - 1 == n;
        }
      }
    }
  }

  /** Writing a sign before grouped digits still leaves every comma right after a digit. */
  lemma SignedCommasFollowDigits(sign: string, digits: string)
    requires sign == "" || sign == "-"
    requires forall k :: 0 <= k < |digits| ==> IsDigit(digits[k])
    ensures forall j :: 0 <= j < |sign + Grouped(digits, 0)| && (sign + Grouped(digits, 0))[j] == ','
                        ==> j > 0 && IsDigit((sign + Grouped(digits, 0))[j - 1])
  {
    GroupedCommaFollowsDigit(digits, 0);
    var g := Grouped(digits, 0);
    var s := sign + g;
    forall j | 0 <= j < |s| && s[j] == ','
      ensures j > 0 && IsDigit(s[j - 1])
    {
      assert s[j] == g[j - |sign|];
      if j - |sign| > 0 {
        assert s[j - 1] == g[j - |sign| - 1];
      }
    }
  }

  /**
   * `formatNumber` as evidently intended: the sign is written first and only
   * the digits are grouped, so every comma follows a digit.
   */
  method FormatNumberSigned(num: int) returns (s: string)
    ensures StripCommas(s) == Itoa(num)
    ensures forall j :: 0 <= j < |s| && s[j] == ',' ==> j > 0 && IsDigit(s[j - 1])
    ensures num >= 0 ==> s == Grouped(Itoa(num), 0)
    ensures num < 0 ==> s == "-" + Grouped(NatDigits(-num), 0)
  {
    var digits := NatDigits(if num < 0 then -num else num);
    var sign := if num < 0 then "-" else "";
    s := AppendGrouped(sign, digits);
    StripGrouped(digits, 0);
    StripCommasAppend(sign, Grouped(digits, 0));
    assert StripCommas(sign) == sign;
    SignedCommasFollowDigits(sign, digits);
  }
}
