/**
 * The numeric conventions of the Java code, written out over Dafny's
 * unbounded integers and exact reals: int division truncating toward zero,
 * the `(int)` cast of a double, `Math.round`, the scaling of `Math.random()`
 * into an integer range, and the decimal rendering used by `String.format("%d")`.
 */
module JavaMath {

  /** Integer.MAX_VALUE, the "no neighbour" marker of the interpolator and the
      initial minimum of the border computation. */
  const MaxInt: int := 0x7fff_ffff

  function Min(a: int, b: int): int { if a <= b then a else b }

  function Max(a: int, b: int): int { if a <= b then b else a }

  /** `v` lies between `a` and `b`, whichever of the two is smaller. */
  predicate InRange(v: int, a: int, b: int) { Min(a, b) <= v <= Max(a, b) }

  /** Java's `a / b` on int for a positive divisor: the exact quotient
      truncated toward zero (Dafny's own `/` floors instead). */
  function TruncDiv(a: int, b: int): (q: int)
    requires b > 0
    ensures 0 <= a ==> 0 <= q && b * q <= a < b * q + b
    ensures a < 0 ==> q <= 0 && b * q - b < a <= b * q
  {
    if a >= 0 then
      FloorDivFacts(a, b);
      a / b
    else
      FloorDivFacts(-a, b);
      NegateProduct(b, (-a) / b);
      -((-a) / b)
  }

  lemma FloorDivFacts(a: int, b: int)
    requires a >= 0 && b > 0
    ensures 0 <= a / b && b * (a / b) <= a < b * (a / b) + b
  {
    assert a == b * (a / b) + a % b;
  }

  lemma NegateProduct(b: int, q: int)
    ensures b * -q == -(b * q)
  {
  }

  /** The sum of a list, accumulated left to right. */
  function Sum(xs: seq<int>): int
  {
    if xs == [] then 0 else Sum(xs[..|xs| - 1]) + xs[|xs| - 1]
  }

  lemma {:induction false} SumBounds(xs: seq<int>, lo: int, hi: int)
    requires forall i :: 0 <= i < |xs| ==> lo <= xs[i] <= hi
    ensures |xs| * lo <= Sum(xs) <= |xs| * hi
  {
    if xs != [] {
      SumBounds(xs[..|xs| - 1], lo, hi);
      assert (|xs| - 1) * lo + lo == |xs| * lo;
      assert (|xs| - 1) * hi + hi == |xs| * hi;
    }
  }

  lemma MulMonotone(n: int, a: int, b: int)
    requires n >= 0 && a <= b
    ensures n * a <= n * b
  {
    assert n * b - n * a == n * (b - a);
  }

  /** A truncated quotient of a total that lies between `n * lo` and `n * hi`
      lies between `lo` and `hi`. */
  lemma TruncDivBounds(total: int, n: int, lo: int, hi: int)
    requires n > 0 && n * lo <= total <= n * hi
    ensures lo <= TruncDiv(total, n) <= hi
  {
    var q := TruncDiv(total, n);
    if q < lo {
      MulMonotone(n, q, lo - 1);
    }
    if q > hi {
      MulMonotone(n, hi + 1, q);
    }
  }

  /** The mean that InterpolateParticle.meanMeasure computes: the double
      quotient of the sum by the length, cast to int (so truncated toward
      zero; the quotient of two ints below 2^53 is close enough to exact that
      the cast sees no rounding). The empty list gives 0.0 / 0 = NaN, which
      the cast turns into 0. */
  function TruncMean(xs: seq<int>): int
  {
    if xs == [] then 0 else TruncDiv(Sum(xs), |xs|)
  }

  /** The truncated mean of a non-empty list lies between its least and its
      greatest element. */
  lemma TruncMeanBounds(xs: seq<int>, lo: int, hi: int)
    requires xs != []
    requires forall i :: 0 <= i < |xs| ==> lo <= xs[i] <= hi
    ensures lo <= TruncMean(xs) <= hi
  {
    SumBounds(xs, lo, hi);
    TruncDivBounds(Sum(xs), |xs|, lo, hi);
  }

  lemma TruncMeanExamples()
    ensures TruncMean([-40, -60]) == -50
    ensures TruncMean([-40, -41]) == -40
    ensures TruncMean([]) == 0
  {
    assert [-40, -60][..1] == [-40] && [-40][..0] == [];
    assert [-40, -41][..1] == [-40];
    assert Sum([-40, -60]) == -100;
    assert Sum([-40, -41]) == -81;
  }

  /** Math.round: the nearest integer, halves rounded up. */
  function RoundHalfUp(r: real): int
  {
    (r + 0.5).Floor
  }

  /** The `(int)` cast of a double: truncation toward zero. */
  function TruncToInt(r: real): (t: int)
    ensures r >= 0.0 ==> t as real <= r < t as real + 1.0
    ensures r < 0.0 ==> t as real - 1.0 < r <= t as real
  {
    if r >= 0.0 then r.Floor else -((-r).Floor)
  }

  /** Math.round(total / count) of a double total of ints: with no item the
      quotient is 0.0 / 0 = NaN, and Math.round(NaN) is 0. */
  function RoundedMean(total: int, count: nat): int
  {
    if count == 0 then 0 else RoundHalfUp(total as real / count as real)
  }

  /** The rounded mean of `count` values taken from `[lo, hi]` lies in `[lo, hi]`. */
  lemma RoundedMeanBounds(total: int, count: nat, lo: int, hi: int)
    requires count > 0 && count * lo <= total <= count * hi
    ensures lo <= RoundedMean(total, count) <= hi
  {
    var c := count as real;
    var q := total as real / c;
    assert q * c == total as real;
    assert (lo as real) * c <= total as real;
    assert (hi as real) * c >= total as real;
    assert lo as real <= q <= hi as real;
  }

  /** `(int) Math.round(u * (hi - lo) + lo)` for a draw `u` of Math.random():
      an integer between `lo` and `hi`. */
  function Sample(u: real, lo: int, hi: int): (v: int)
    requires 0.0 <= u < 1.0
    ensures InRange(v, lo, hi)
  {
    var d := (hi - lo) as real;
    assert d >= 0.0 ==> 0.0 <= u * d <= d;
    assert d < 0.0 ==> d <= u * d <= 0.0;
    RoundHalfUp(u * d + lo as real)
  }

  lemma ProductSigns(a: real, b: real)
    ensures a <= 0.0 && b > 0.0 ==> a * b <= 0.0
    ensures a <= 0.0 && b < 0.0 ==> a * b >= 0.0
  {
  }

  /** `off / d` for an offset strictly inside `(0, d)` or `(d, 0)` is a valid draw. */
  lemma FractionOf(off: real, d: real) returns (u: real)
    requires 0.0 < off < d || d < off < 0.0
    ensures 0.0 < u < 1.0 && u * d == off
  {
    u := off / d;
    assert u * d == off;
    assert (1.0 - u) * d == d - off;
    var e := 1.0 - u;
    assert e * d == d - off;
    ProductSigns(e, d);
    ProductSigns(u, d);
  }

  /** Every integer of the range is a possible sample, so `InRange` describes
      exactly the points Math.random() can produce. */
  lemma SampleReaches(lo: int, hi: int, v: int)
    requires InRange(v, lo, hi)
    ensures exists u: real :: 0.0 <= u < 1.0 && Sample(u, lo, hi) == v
  {
    if v == lo {
      assert Sample(0.0, lo, hi) == v;
    } else {
      // aim a quarter step from v toward lo, so that v == hi is reachable too
      var off := if lo < hi then (v - lo) as real - 0.25 else (v - lo) as real + 0.25;
      var d := (hi - lo) as real;
      var u := FractionOf(off, d);
      assert u * d + lo as real == off + lo as real;
      assert Sample(u, lo, hi) == v;
    }
  }

  // ---- decimal rendering, as String.format("%d") prints an int ----

  function DigitChar(d: int): char
    requires 0 <= d < 10
  {
    ('0' as int + d) as char
  }

  /** The decimal digits of a natural number, most significant first, without leading zeros. */
  function Digits(n: nat): string
    decreases n
  {
    if n < 10 then [DigitChar(n)] else Digits(n / 10) + [DigitChar(n % 10)]
  }

  /** `%d`: a minus sign for negative numbers, then the digits. */
  function Decimal(n: int): string
  {
    if n < 0 then "-" + Digits(-n) else Digits(n)
  }

  /** The value of a string of decimal digits (the reading direction of `Decimal`). */
  function DigitsValue(s: string): int
  {
    if s == [] then 0 else DigitsValue(s[..|s| - 1]) * 10 + (s[|s| - 1] as int - '0' as int)
  }

  function ParseDecimal(s: string): int
  {
    if |s| > 0 && s[0] == '-' then -DigitsValue(s[1..]) else DigitsValue(s)
  }

  lemma {:induction false} DigitsRoundTrip(n: nat)
    ensures |Digits(n)| > 0 && Digits(n)[0] != '-'
    ensures DigitsValue(Digits(n)) == n
    decreases n
  {
    if n < 10 {
      assert Digits(n) == [DigitChar(n)];
      assert [DigitChar(n)][..0] == [];
    } else {
      var high := Digits(n / 10);
      DigitsRoundTrip(n / 10);
      var s := high + [DigitChar(n % 10)];
      assert Digits(n) == s;
      assert s[..|s| - 1] == high;
      assert DigitsValue(s) == DigitsValue(high) * 10 + n % 10;
    }
  }

  /** The rendering is readable back: `Decimal` loses no information. */
  lemma DecimalRoundTrip(n: int)
    ensures ParseDecimal(Decimal(n)) == n
  {
    if n < 0 {
      var d := Digits(-n);
      DigitsRoundTrip(-n);
      var s := "-" + d;
      assert Decimal(n) == s;
      assert s[0] == '-' && s[1..] == d;
      assert ParseDecimal(s) == -DigitsValue(d);
    } else {
      DigitsRoundTrip(n);
      assert ParseDecimal(Digits(n)) == DigitsValue(Digits(n));
    }
  }

  // ---- String.compareTo, the order of a TreeMap<String, ...> ----

  /** `a.compareTo(b) < 0`: the first differing character decides, and a
      proper prefix comes first. */
  predicate StrLess(a: string, b: string)
  {
    if a == [] then b != []
    else if b == [] then false
    else if a[0] != b[0] then a[0] < b[0]
    else StrLess(a[1..], b[1..])
  }

  lemma StrLessAsymmetric(a: string, b: string)
    ensures StrLess(a, b) ==> !StrLess(b, a)
  {
  }

  lemma StrLessTotal(a: string, b: string)
    ensures a == b || StrLess(a, b) || StrLess(b, a)
  {
    if a != [] && b != [] && a[0] == b[0] {
      StrLessTotal(a[1..], b[1..]);
      if a[1..] == b[1..] {
        assert a == [a[0]] + a[1..] && b == [b[0]] + b[1..];
      }
    }
  }

  lemma StrLessTransitive(a: string, b: string, c: string)
    requires StrLess(a, b) && StrLess(b, c)
    ensures StrLess(a, c)
  {
    if a != [] && a[0] == b[0] && b[0] == c[0] {
      StrLessTransitive(a[1..], b[1..], c[1..]);
    }
  }

  /** `m` is the first key of `s` in compareTo order. */
  predicate IsLeast(m: string, s: set<string>)
  {
    m in s && forall k :: k in s && k != m ==> StrLess(m, k)
  }

  lemma LeastExists(s: set<string>)
    requires s != {}
    ensures exists m :: IsLeast(m, s)
    decreases |s|
  {
    assert |s| != 0;
    var x :| x in s;
    if s - {x} == {} {
      assert s == {x};
      assert IsLeast(x, s);
    } else {
      LeastExists(s - {x});
      var m :| IsLeast(m, s - {x});
      StrLessTotal(m, x);
      if StrLess(m, x) {
        assert IsLeast(m, s);
      } else {
        forall k | k in s && k != x
          ensures StrLess(x, k)
        {
          if k != m { StrLessTransitive(x, m, k); }
        }
        assert IsLeast(x, s);
      }
    }
  }

  lemma LeastUnique(a: string, b: string, s: set<string>)
    requires IsLeast(a, s) && IsLeast(b, s)
    ensures a == b
  {
    if a != b {
      StrLessAsymmetric(a, b);
    }
  }

  predicate StrictlySorted(keys: seq<string>)
  {
    forall i, j :: 0 <= i < j < |keys| ==> StrLess(keys[i], keys[j])
  }

  /** The keys of a TreeMap<String, ...> in the order its entrySet walks them. */
  ghost function SortedKeys(s: set<string>): seq<string>
    decreases |s|
  {
    if s == {} then []
    else
      LeastExists(s);
      var m :| IsLeast(m, s);
      [m] + SortedKeys(s - {m})
  }

  /** Walking a TreeMap: the least key comes first, then the rest in order. */
  lemma SortedKeysStep(s: set<string>, m: string)
    requires IsLeast(m, s)
    ensures SortedKeys(s) == [m] + SortedKeys(s - {m})
  {
    var r := SortedKeys(s);
    assert IsLeast(r[0], s) && r == [r[0]] + SortedKeys(s - {r[0]});
    LeastUnique(m, r[0], s);
  }

  /** The keys of a TreeMap come out each once, in strictly ascending order. */
  lemma {:induction false} SortedKeysSpec(s: set<string>)
    ensures forall k :: k in SortedKeys(s) <==> k in s
    ensures StrictlySorted(SortedKeys(s))
    decreases |s|
  {
    if s != {} {
      var r := SortedKeys(s);
      var m := r[0];
      assert IsLeast(m, s) && r == [m] + SortedKeys(s - {m});
      SortedKeysSpec(s - {m});
      forall i, j | 0 <= i < j < |r|
        ensures StrLess(r[i], r[j])
      {
        if i > 0 {
          assert r[i] == r[1..][i - 1] && r[j] == r[1..][j - 1];
        } else {
          assert r[j] in s - {m};
        }
      }
    }
  }
}
