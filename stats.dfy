/** Integer statistics shared by the six- and five-player teams: sums,
    the truncation `as i32` applies to an average, and the sum of squared
    deviations that both `get_standard_deviation`s take the square root of. */
module Stats {
  import opened Strings

  function Sum(xs: seq<int>): int
  {
    if xs == [] then 0 else Sum(xs[..|xs| - 1]) + xs[|xs| - 1]
  }

  lemma SumOfFew(xs: seq<int>)
    ensures |xs| == 1 ==> Sum(xs) == xs[0]
    ensures |xs| == 2 ==> Sum(xs) == xs[0] + xs[1]
  {
    if |xs| == 2 {
      assert xs[..1] == [xs[0]] && xs[..1][..0] == [];
    }
    if |xs| == 1 {
      assert xs[..0] == [];
    }
  }

  /** `xs.iter().sum::<i16>()` does not overflow: every running total fits in `i16`. */
  predicate PrefixSumsFit(xs: seq<int>)
  {
    forall k :: 0 <= k <= |xs| ==> IsI16(Sum(xs[..k]))
  }

  /** Integer division truncated toward zero (Rust's `/`, and `as i32` of a quotient). */
  function TruncDiv(a: int, b: int): (q: int)
    requires b > 0
    ensures -b < a - q * b < b
    ensures a >= 0 ==> 0 <= a - q * b
    ensures a <= 0 ==> a - q * b <= 0
  {
    if a >= 0 then a / b else -((-a) / b)
  }

  /** `x as i32` for a value in range: the integer part, rounded toward zero. */
  function TruncReal(x: real): (i: int)
    ensures x >= 0.0 ==> 0 <= i && i as real <= x < i as real + 1.0
    ensures x < 0.0 ==> i <= 0 && i as real - 1.0 < x <= i as real
  {
    if x >= 0.0 then x.Floor else -((-x).Floor)
  }

  /** Truncating the exact quotient gives the truncated integer quotient. */
  lemma TruncOfQuotient(a: int, b: int)
    requires b > 0
    ensures TruncReal(a as real / b as real) == TruncDiv(a, b)
  {
    var q := TruncDiv(a, b);
    var r := a - q * b;
    QuotientSplit(a, b, q, r);
    FractionBounds(r, b);
  }

  lemma QuotientSplit(a: int, b: int, q: int, r: int)
    requires b > 0 && a == q * b + r
    ensures a as real / b as real == q as real + r as real / b as real
  {
    assert a as real == q as real * b as real + r as real;
  }

  lemma FractionBounds(r: int, b: int)
    requires b > 0 && -b < r < b
    ensures r >= 0 ==> 0.0 <= r as real / b as real < 1.0
    ensures r <= 0 ==> -1.0 < r as real / b as real <= 0.0
  {
  }

  /** Σ (x - avg)² over `xs`. */
  function SquaredDeviations(xs: seq<int>, avg: int): int
  {
    if xs == [] then 0
    else SquaredDeviations(xs[..|xs| - 1], avg) + (xs[|xs| - 1] - avg) * (xs[|xs| - 1] - avg)
  }

  /** The accumulation loop of `get_standard_deviation`. */
  method SumSquaredDeviations(xs: seq<int>, avg: int) returns (acc: int)
    ensures acc == SquaredDeviations(xs, avg)
  {
    acc := 0;
    var i := 0;
    while i < |xs|
      invariant 0 <= i <= |xs|
      invariant acc == SquaredDeviations(xs[..i], avg)
    {
      assert xs[..i + 1][..i] == xs[..i];
      acc := acc + (xs[i] - avg) * (xs[i] - avg);
      i := i + 1;
    }
    assert xs[..i] == xs;
  }

  predicate AllEqualTo(xs: seq<int>, v: int)
  {
    forall i :: 0 <= i < |xs| ==> xs[i] == v
  }

  /** The sum of squares is zero exactly when every value equals the average. */
  lemma {:induction false} SquaredDeviationsZero(xs: seq<int>, avg: int)
    ensures SquaredDeviations(xs, avg) >= 0
    ensures SquaredDeviations(xs, avg) == 0 <==> AllEqualTo(xs, avg)
    decreases |xs|
  {
    if xs != [] {
      var init, last := xs[..|xs| - 1], xs[|xs| - 1];
      SquaredDeviationsZero(init, avg);
      Square(last - avg);
      assert AllEqualTo(xs, avg) <==> AllEqualTo(init, avg) && last == avg by {
        if AllEqualTo(init, avg) && last == avg {
          forall i | 0 <= i < |xs| ensures xs[i] == avg {
            if i < |xs| - 1 { assert xs[i] == init[i]; }
          }
        }
      }
    }
  }

  lemma Square(d: int)
    ensures d * d >= 0
    ensures d * d == 0 <==> d == 0
  {
    if d > 0 {
      MulAtLeast(d, d);
    } else if d < 0 {
      MulAtLeast(-d, -d);
    }
  }

  lemma {:induction false} SumOfEqual(xs: seq<int>, v: int)
    requires AllEqualTo(xs, v)
    ensures Sum(xs) == |xs| * v
    decreases |xs|
  {
    if xs != [] {
      SumOfEqual(xs[..|xs| - 1], v);
    }
  }

  lemma MulAtLeast(n: int, k: int)
    requires n > 0
    ensures k >= 1 ==> n * k >= n
    ensures k <= -1 ==> n * k <= -n
  {
    assert n * k == n * (k - 1) + n;
    assert n * k == n * (k + 1) - n;
  }

  lemma TruncDivOfMultiple(v: int, n: int)
    requires n > 0
    ensures TruncDiv(n * v, n) == v
  {
    var q := TruncDiv(n * v, n);
    var d := v - q;
    assert n * v - q * n == n * d;
    MulAtLeast(n, d);
  }

  /** When all values are equal their truncated average is that value, so the
      sum of squares around it is zero; conversely a zero sum of squares
      around the truncated average forces all values to be equal. */
  lemma ZeroSpreadIffEqual(xs: seq<int>)
    requires |xs| > 0
    ensures SquaredDeviations(xs, TruncDiv(Sum(xs), |xs|)) == 0 <==> AllEqualTo(xs, xs[0])
  {
    var avg := TruncDiv(Sum(xs), |xs|);
    SquaredDeviationsZero(xs, avg);
    if AllEqualTo(xs, xs[0]) {
      SumOfEqual(xs, xs[0]);
      TruncDivOfMultiple(xs[0], |xs|);
    }
  }
}
