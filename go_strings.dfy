/**
 * The parts of Go's `strings` and `strconv` packages that the input helpers
 * and the market-data tools rely on, over strings as sequences of characters.
 */
module GoStrings {
  import opened Wrappers
  import opened Numeric

  // ---------------------------------------------------------------------
  // White space, case, suffixes
  // ---------------------------------------------------------------------

  /** `unicode.IsSpace`: the Unicode White_Space characters. */
  predicate IsSpace(c: char)
  {
    var n := c as int;
    n == 0x20 || 0x09 <= n <= 0x0D || n == 0x85 || n == 0xA0 || n == 0x1680
    || 0x2000 <= n <= 0x200A || n == 0x2028 || n == 0x2029 || n == 0x202F
    || n == 0x205F || n == 0x3000
  }

  predicate AllSpace(s: string)
  {
    forall i :: 0 <= i < |s| ==> IsSpace(s[i])
  }

  /** Drops leading white space. */
  function TrimLeftSpace(s: string): string
  {
    if s != [] && IsSpace(s[0]) then TrimLeftSpace(s[1..]) else s
  }

  /** What is left is a suffix of `s` that starts with a non-space, and only spaces were dropped. */
  lemma {:induction false} TrimLeftSpaceSuffix(s: string)
    ensures var r := TrimLeftSpace(s);
      && |r| <= |s| && r == s[|s| - |r|..]
      && AllSpace(s[..|s| - |r|])
      && (r == [] || !IsSpace(r[0]))
  {
    if s != [] && IsSpace(s[0]) {
      TrimLeftSpaceSuffix(s[1..]);
      var r := TrimLeftSpace(s[1..]);
      assert s[..|s| - |r|] == [s[0]] + s[1..][..|s[1..]| - |r|];
    }
  }

  /** Drops trailing white space. */
  function TrimRightSpace(s: string): string
  {
    if s != [] && IsSpace(s[|s| - 1]) then TrimRightSpace(s[..|s| - 1]) else s
  }

  /** What is left is a prefix of `s` that ends with a non-space, and only spaces were dropped. */
  lemma {:induction false} TrimRightSpacePrefix(s: string)
    ensures var r := TrimRightSpace(s);
      && |r| <= |s| && r == s[..|r|]
      && AllSpace(s[|r|..])
      && (r == [] || !IsSpace(r[|r| - 1]))
  {
    if s != [] && IsSpace(s[|s| - 1]) {
      TrimRightSpacePrefix(s[..|s| - 1]);
      var r := TrimRightSpace(s[..|s| - 1]);
      assert s[|r|..] == s[..|s| - 1][|r|..] + [s[|s| - 1]];
    }
  }

  /** `strings.TrimSpace`. */
  function TrimSpace(s: string): string
  {
    TrimRightSpace(TrimLeftSpace(s))
  }

  /**
   * A trimmed string is a slice of the input with only white space cut off
   * either end; it neither starts nor ends with white space, and trimming
   * again changes nothing.
   */
  lemma TrimSpaceTrims(s: string)
    ensures var t, k := TrimSpace(s), |s| - |TrimLeftSpace(s)|;
      && 0 <= k && k + |t| <= |s| && s[k..k + |t|] == t
      && AllSpace(s[..k]) && AllSpace(s[k + |t|..])
    ensures var t := TrimSpace(s); t == [] || (!IsSpace(t[0]) && !IsSpace(t[|t| - 1]))
    ensures TrimSpace(TrimSpace(s)) == TrimSpace(s)
  {
    var l := TrimLeftSpace(s);
    TrimLeftSpaceSuffix(s);
    var t := TrimRightSpace(l);
    TrimRightSpacePrefix(l);
    var k := |s| - |l|;
    assert s[k..k + |t|] == l[..|t|];
    assert s[k + |t|..] == l[|t|..];
    if t != [] {
      assert t[0] == l[0];
    }
    assert TrimLeftSpace(t) == t;
    TrimRightNoop(t);
  }

  lemma TrimRightNoop(t: string)
    requires t == [] || !IsSpace(t[|t| - 1])
    ensures TrimRightSpace(t) == t
  {
  }

  /** A string with no white space at either end is its own `TrimSpace`. */
  lemma TrimSpaceNoop(t: string)
    requires t == [] || (!IsSpace(t[0]) && !IsSpace(t[|t| - 1]))
    ensures TrimSpace(t) == t
  {
    assert TrimLeftSpace(t) == t;
    TrimRightNoop(t);
  }

  /** `unicode.ToLower` on the ASCII letters; every other character is kept. */
  function LowerChar(c: char): char
  {
    if 'A' <= c <= 'Z' then (c as int - 'A' as int + 'a' as int) as char else c
  }

  /**
   * `strings.ToLower`, restricted to ASCII: Go also lowers every other
   * Unicode upper-case letter, which this model keeps as it is.
   */
  function ToLower(s: string): (r: string)
    ensures |r| == |s|
    ensures forall i :: 0 <= i < |s| ==> r[i] == LowerChar(s[i])
  {
    if s == [] then [] else [LowerChar(s[0])] + ToLower(s[1..])
  }

  /** `strings.HasSuffix(s, string(c))`. */
  predicate HasSuffix(s: string, c: char)
  {
    |s| > 0 && s[|s| - 1] == c
  }

  /** `strings.TrimSuffix(s, string(c))`: removes one trailing `c`, if there is one. */
  function TrimSuffix(s: string, c: char): (r: string)
    ensures HasSuffix(s, c) ==> r + [c] == s
    ensures !HasSuffix(s, c) ==> r == s
  {
    if HasSuffix(s, c) then s[..|s| - 1] else s
  }

  // ---------------------------------------------------------------------
  // Searching and splitting
  // ---------------------------------------------------------------------

  /** `strings.Index(s, string(c))`: the first position of `c`, or -1. */
  function Index(s: string, c: char): (r: int)
    ensures -1 <= r < |s|
    ensures r == -1 <==> c !in s
    ensures r >= 0 ==> s[r] == c && c !in s[..r]
  {
    if s == [] then -1
    else if s[0] == c then 0
    else
      var i := Index(s[1..], c);
      if i == -1 then -1
      else
        assert s[..i + 1] == [s[0]] + s[1..][..i];
        i + 1
  }

  /** `strings.Split(s, string(sep))`. */
  function Split(s: string, sep: char): (parts: seq<string>)
    ensures |parts| >= 1
    ensures forall i :: 0 <= i < |parts| ==> sep !in parts[i]
    decreases |s|
  {
    var i := Index(s, sep);
    if i == -1 then [s] else [s[..i]] + Split(s[i + 1..], sep)
  }

  /** `strings.Join(parts, string(sep))`. */
  function Join(parts: seq<string>, sep: char): string
  {
    if parts == [] then ""
    else if |parts| == 1 then parts[0]
    else parts[0] + [sep] + Join(parts[1..], sep)
  }

  lemma JoinCons(head: string, rest: seq<string>, sep: char)
    requires |rest| >= 1
    ensures Join([head] + rest, sep) == head + [sep] + Join(rest, sep)
  {
    var parts := [head] + rest;
    assert parts[0] == head && parts[1..] == rest;
  }

  /** A sequence is what comes before position `i`, the element there and what follows. */
  lemma CutAround(s: string, i: nat)
    requires i < |s|
    ensures s == s[..i] + [s[i]] + s[i + 1..]
  {
  }

  /** `Split` cuts at the first separator and splits the rest. */
  lemma SplitAtFirst(s: string, sep: char)
    requires Index(s, sep) != -1
    ensures Split(s, sep) == [s[..Index(s, sep)]] + Split(s[Index(s, sep) + 1..], sep)
  {
  }

  /** Splitting loses nothing: joining the parts with the separator gives the input back. */
  lemma {:induction false} JoinSplit(s: string, sep: char)
    ensures Join(Split(s, sep), sep) == s
    decreases |s|
  {
    var i := Index(s, sep);
    if i != -1 {
      SplitAtFirst(s, sep);
      CutAround(s, i);
      JoinSplit(s[i + 1..], sep);
      JoinCons(s[..i], Split(s[i + 1..], sep), sep);
    }
  }

  // ---------------------------------------------------------------------
  // Decimal integers: strconv.Atoi and strconv.Itoa
  // ---------------------------------------------------------------------

  const MaxUint64: int := 0xFFFF_FFFF_FFFF_FFFF
  /** `maxUint64/10 + 1`: at or above this, one more decimal digit overflows. */
  const Cutoff: int := MaxUint64 / 10 + 1

  datatype NumError = ErrSyntax | ErrRange

  predicate IsDigit(c: char) { '0' <= c <= '9' }

  function DigitValue(c: char): nat
    requires IsDigit(c)
  {
    c as int - '0' as int
  }

  function DigitChar(d: nat): (c: char)
    requires d < 10
    ensures IsDigit(c) && DigitValue(c) == d
  {
    (d + '0' as int) as char
  }

  datatype UintScan = UintValue(n: nat) | UintSyntax | UintRange

  /**
   * `strconv.ParseUint(s, 10, 64)` from an accumulated value `acc`: digits
   * are consumed left to right; a non-digit is a syntax error, and the
   * first digit that would exceed 2^64-1 is a range error.
   */
  function ScanDecimal(s: string, acc: nat): (r: UintScan)
    requires acc <= MaxUint64
    ensures r.UintValue? ==> acc <= r.n <= MaxUint64
  {
    if s == [] then UintValue(acc)
    else if !IsDigit(s[0]) then UintSyntax
    else if acc >= Cutoff then UintRange
    else
      var next := acc * 10 + DigitValue(s[0]);
      if next > MaxUint64 then UintRange else ScanDecimal(s[1..], next)
  }

  /** The `(value, err)` pair returned by `strconv.Atoi`. */
  datatype AtoiResult = AtoiResult(value: int, err: Option<NumError>)

  /**
   * `strconv.Atoi` (through `strconv.ParseInt(s, 10, 0)`): an optional sign,
   * then decimal digits. On a syntax error the value is 0; out of range it
   * is clamped to the nearest 64-bit bound.
   */
  function Atoi(s: string): (r: AtoiResult)
    ensures r.err == None ==> InInt64(r.value)
  {
    if s == [] then AtoiResult(0, Some(ErrSyntax))
    else
      var neg := s[0] == '-';
      var digits := if s[0] == '-' || s[0] == '+' then s[1..] else s;
      if digits == [] then AtoiResult(0, Some(ErrSyntax))
      else
        match ScanDecimal(digits, 0)
        case UintSyntax => AtoiResult(0, Some(ErrSyntax))
        case UintRange => AtoiResult(if neg then MinInt64 else MaxInt64, Some(ErrRange))
        case UintValue(u) =>
          if !neg && u > MaxInt64 then AtoiResult(MaxInt64, Some(ErrRange))
          else if neg && u > -MinInt64 then AtoiResult(MinInt64, Some(ErrRange))
          else AtoiResult(if neg then -(u as int) else u, None)
  }

  /** The decimal digits of `n`, most significant first, without leading zeros. */
  function NatDigits(n: nat): (s: string)
    ensures |s| >= 1
    ensures forall i :: 0 <= i < |s| ==> IsDigit(s[i])
  {
    if n < 10 then [DigitChar(n)] else NatDigits(n / 10) + [DigitChar(n % 10)]
  }

  /** `strconv.Itoa` (and `fmt`'s `%d`). */
  function Itoa(n: int): string
  {
    if n < 0 then "-" + NatDigits(-n) else NatDigits(n)
  }

  /** Scanning is a left fold with early exit, so it can be split at any point. */
  lemma {:induction false} ScanAppend(s: string, t: string, acc: nat)
    requires acc <= MaxUint64
    ensures ScanDecimal(s + t, acc)
         == match ScanDecimal(s, acc)
            case UintValue(m) => ScanDecimal(t, m)
            case other => other
  {
    if s != [] {
      assert (s + t)[0] == s[0];
      assert (s + t)[1..] == s[1..] + t;
      if IsDigit(s[0]) && acc < Cutoff && acc * 10 + DigitValue(s[0]) <= MaxUint64 {
        ScanAppend(s[1..], t, acc * 10 + DigitValue(s[0]));
      }
    } else {
      assert s + t == t;
    }
  }

  lemma {:induction false} ScanNatDigits(n: nat)
    requires n <= MaxUint64
    ensures ScanDecimal(NatDigits(n), 0) == UintValue(n)
  {
    if n >= 10 {
      ScanNatDigits(n / 10);
      ScanAppend(NatDigits(n / 10), [DigitChar(n % 10)], 0);
    }
  }

  /** `Itoa` and `Atoi` are inverse on every 64-bit integer. */
  lemma AtoiItoa(n: int)
    requires InInt64(n)
    ensures Atoi(Itoa(n)) == AtoiResult(n, None)
  {
    if n < 0 {
      ScanNatDigits(-n);
      assert Itoa(n)[1..] == NatDigits(-n);
    } else {
      ScanNatDigits(n);
    }
  }

  /** `Itoa` writes only digits and a minus sign. */
  lemma ItoaChars(n: int)
    ensures forall i :: 0 <= i < |Itoa(n)| ==> Itoa(n)[i] == '-' || IsDigit(Itoa(n)[i])
  {
  }

  /** No decimal rendering contains a letter such as the duration markers `y` and `m`. */
  lemma ItoaHasNoLetter(n: int, c: char)
    requires !IsDigit(c) && c != '-'
    ensures c !in Itoa(n)
  {
  }
}
