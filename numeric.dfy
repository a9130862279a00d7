/**
 * Arithmetic shared by the projection engine and the market-data tools:
 * integer powers of reals, prefix sums over month arrays, sums and means
 * over the key sets of Go maps, and Go's 64-bit `int`.
 */
module Numeric {

  // ---------------------------------------------------------------------
  // Go `int` (64 bits on every platform the tool targets)
  // ---------------------------------------------------------------------

  const MinInt64: int := -0x8000_0000_0000_0000
  const MaxInt64: int := 0x7FFF_FFFF_FFFF_FFFF

  predicate InInt64(x: int) { MinInt64 <= x <= MaxInt64 }

  /** Two's-complement wrap-around of a Go `int` expression. */
  function Wrap64(x: int): (r: int)
    ensures InInt64(r)
    ensures InInt64(x) ==> r == x
    ensures (r - x) % 0x1_0000_0000_0000_0000 == 0
  {
    (x - MinInt64) % 0x1_0000_0000_0000_0000 + MinInt64
  }

  /** Go's integer `/`: the quotient truncated toward zero. */
  function TruncDiv(a: int, b: int): (q: int)
    requires b > 0
    ensures a >= 0 ==> q == a / b
    ensures a < 0 ==> q <= 0 && q * b >= a > (q - 1) * b
  {
    if a >= 0 then a / b else -((-a) / b)
  }

  /** Go's integer `%`: the remainder takes the sign of the dividend. */
  function TruncMod(a: int, b: int): (r: int)
    requires b > 0
    ensures a >= 0 ==> r == a % b
    ensures a < 0 ==> -b < r <= 0
  {
    a - TruncDiv(a, b) * b
  }

  // ---------------------------------------------------------------------
  // Powers
  // ---------------------------------------------------------------------

  /** `b` raised to a whole number of periods (Go's `math.Pow` with an integral exponent). */
  function Pow(b: real, n: nat): real
  {
    if n == 0 then 1.0 else b * Pow(b, n - 1)
  }

  // ---------------------------------------------------------------------
  // Prefix sums over month arrays
  // ---------------------------------------------------------------------

  /** `s[0] + ... + s[k-1]`, the running total of the first `k` months. */
  function PrefixSum(s: seq<real>, k: nat): real
    requires k <= |s|
  {
    if k == 0 then 0.0 else PrefixSum(s, k - 1) + s[k - 1]
  }

  /** `(a[0] - b[0]) + ... + (a[k-1] - b[k-1])`. */
  function PrefixDiffSum(a: seq<real>, b: seq<real>, k: nat): real
    requires k <= |a| && k <= |b|
  {
    if k == 0 then 0.0 else PrefixDiffSum(a, b, k - 1) + (a[k - 1] - b[k - 1])
  }

  /** Summing month by month the difference of two arrays is the difference of their totals. */
  lemma {:induction false} PrefixDiffSumSplits(a: seq<real>, b: seq<real>, k: nat)
    requires k <= |a| && k <= |b|
    ensures PrefixDiffSum(a, b, k) == PrefixSum(a, k) - PrefixSum(b, k)
  {
    if k > 0 {
      PrefixDiffSumSplits(a, b, k - 1);
    }
  }

  // ---------------------------------------------------------------------
  // Sums and means over the keys of a Go map
  // ---------------------------------------------------------------------

  /** Go's `m[k]`: the zero value when the key is missing. */
  function Lookup(m: map<string, real>, k: string): real
  {
    if k in m then m[k] else 0.0
  }

  ghost function Pick(s: set<string>): (k: string)
    requires s != {}
    ensures k in s
  {
    var k :| k in s; k
  }

  /** The sum of `m[k]` over a set of keys, independent of the order Go visits them in. */
  ghost function SumOver(m: map<string, real>, keys: set<string>): real
    decreases keys
  {
    if keys == {} then 0.0
    else
      var k := Pick(keys);
      Lookup(m, k) + SumOver(m, keys - {k})
  }

  /** Any key can be taken out first: the reason a loop over a map in random order computes `SumOver`. */
  lemma {:induction false} SumOverRemove(m: map<string, real>, keys: set<string>, k: string)
    requires k in keys
    ensures SumOver(m, keys) == Lookup(m, k) + SumOver(m, keys - {k})
    decreases keys
  {
    var p := Pick(keys);
    if p != k {
      calc {
        SumOver(m, keys);
        Lookup(m, p) + SumOver(m, keys - {p});
        { SumOverRemove(m, keys - {p}, k); }
        Lookup(m, p) + (Lookup(m, k) + SumOver(m, keys - {p} - {k}));
        { assert keys - {p} - {k} == keys - {k} - {p}; }
        Lookup(m, k) + (Lookup(m, p) + SumOver(m, keys - {k} - {p}));
        { SumOverRemove(m, keys - {k}, p); }
        Lookup(m, k) + SumOver(m, keys - {k});
      }
    }
  }

  /** `x` added `n` times: `n * x` written so that the solver only ever adds. */
  function Times(n: nat, x: real): real
  {
    if n == 0 then 0.0 else x + Times(n - 1, x)
  }

  lemma {:induction false} TimesIsProduct(n: nat, x: real)
    ensures Times(n, x) == (n as real) * x
  {
    if n > 0 {
      TimesIsProduct(n - 1, x);
      assert (n as real) * x == ((n - 1) as real) * x + x;
    }
  }

  /** Each summand is at least `lo`, so the sum is at least `|keys|` times `lo`. */
  lemma {:induction false} SumOverLower(m: map<string, real>, keys: set<string>, lo: real)
    requires forall k :: k in keys ==> lo <= Lookup(m, k)
    ensures Times(|keys|, lo) <= SumOver(m, keys)
    decreases keys
  {
    if keys != {} {
      var k := Pick(keys);
      var rest := keys - {k};
      assert |rest| == |keys| - 1;
      SumOverLower(m, rest, lo);
    }
  }

  /** Each summand is at most `hi`, so the sum is at most `|keys|` times `hi`. */
  lemma {:induction false} SumOverUpper(m: map<string, real>, keys: set<string>, hi: real)
    requires forall k :: k in keys ==> Lookup(m, k) <= hi
    ensures SumOver(m, keys) <= Times(|keys|, hi)
    decreases keys
  {
    if keys != {} {
      var k := Pick(keys);
      var rest := keys - {k};
      assert |rest| == |keys| - 1;
      SumOverUpper(m, rest, hi);
    }
  }

  /**
   * Sums over keys respect a fixed 60/40 weighting: if every `c[k]` is
   * `0.6 * a[k] + 0.4 * b[k]`, the sum of `c` is the same weighting of the sums.
   */
  lemma {:induction false} SumOverSixtyForty(a: map<string, real>, b: map<string, real>, c: map<string, real>,
                                             keys: set<string>)
    requires forall k :: k in keys ==> Lookup(c, k) == 0.6 * Lookup(a, k) + 0.4 * Lookup(b, k)
    ensures SumOver(c, keys) == 0.6 * SumOver(a, keys) + 0.4 * SumOver(b, keys)
    decreases keys
  {
    if keys != {} {
      var k := Pick(keys);
      SumOverSixtyForty(a, b, c, keys - {k});
    }
  }

  /** The mean of `m` over `keys`, or 0 when there is nothing to average. */
  ghost function MeanOver(m: map<string, real>, keys: set<string>): real
  {
    if keys == {} then 0.0 else SumOver(m, keys) / (|keys| as real)
  }

  lemma MulLess(x: real, y: real, n: real)
    requires n > 0.0 && x < y
    ensures x * n < y * n
  {
  }

  lemma QuotientAtLeast(s: real, n: real, lo: real)
    requires n > 0.0 && n * lo <= s
    ensures lo <= s / n
  {
    var q := s / n;
    assert q * n == s;
    if q < lo {
      MulLess(q, lo, n);
    }
  }

  lemma QuotientAtMost(s: real, n: real, hi: real)
    requires n > 0.0 && s <= n * hi
    ensures s / n <= hi
  {
    var q := s / n;
    assert q * n == s;
    if hi < q {
      MulLess(hi, q, n);
    }
  }

  /** A mean of values within `[lo, hi]` is within `[lo, hi]`. */
  lemma MeanOverBounds(m: map<string, real>, keys: set<string>, lo: real, hi: real)
    requires keys != {}
    requires forall k :: k in keys ==> lo <= Lookup(m, k) <= hi
    ensures lo <= MeanOver(m, keys) <= hi
  {
    SumOverLower(m, keys, lo);
    SumOverUpper(m, keys, hi);
    TimesIsProduct(|keys|, lo);
    TimesIsProduct(|keys|, hi);
    QuotientAtLeast(SumOver(m, keys), |keys| as real, lo);
    QuotientAtMost(SumOver(m, keys), |keys| as real, hi);
  }
}
