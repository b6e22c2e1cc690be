/**
 The clients' running statistics: how many samples, their sum, the sum of their
 squares and their extremes, all in 64-bit integers, from which an average and an
 integer variance are printed.  The variance goes to a square root, so it must
 not be negative.
 */
module Statistics {

  const TWO64: nat := 0x1_0000_0000_0000_0000

  function Sum(xs: seq<int>): int {
    if xs == [] then 0 else Sum(xs[..|xs| - 1]) + xs[|xs| - 1]
  }

  function SumSquares(xs: seq<int>): int {
    if xs == [] then 0 else SumSquares(xs[..|xs| - 1]) + xs[|xs| - 1] * xs[|xs| - 1]
  }

  /** The largest sample, or 0 when there is none above it. */
  function Largest(xs: seq<int>): (m: int)
    ensures m >= 0 && forall i :: 0 <= i < |xs| ==> xs[i] <= m
    ensures m == 0 || m in xs
  {
    if xs == [] then 0
    else
      var m, x := Largest(xs[..|xs| - 1]), xs[|xs| - 1];
      if x > m then x else m
  }

  /** The smallest sample, or `top` when there is none below it. */
  function Smallest(xs: seq<int>, top: int): (m: int)
    ensures m <= top && forall i :: 0 <= i < |xs| ==> m <= xs[i]
    ensures m == top || m in xs
  {
    if xs == [] then top
    else
      var m, x := Smallest(xs[..|xs| - 1], top), xs[|xs| - 1];
      if x < m then x else m
  }

  // --------------------------------------------------------------- variance

  /** C's division: the quotient is cut toward zero. */
  function TruncDiv(a: int, b: int): int
    requires b > 0
  {
    if a >= 0 then a / b else -((-a) / b)
  }

  /** The integer variance as main computes it from the accumulators. */
  function Variance(sum: int, squares: int, n: int): int
    requires n > 0
  {
    var mean := TruncDiv(sum, n);
    TruncDiv(squares, n) - mean * mean
  }

  lemma DifferenceSquared(x: int, y: int)
    ensures y * y - 2 * (x * y) + x * x >= 0
  {
    assert (y - x) * (y - x) == y * y - 2 * (x * y) + x * x;
  }

  lemma SquareSum(a: int, b: int)
    ensures (a + b) * (a + b) == a * a + 2 * (b * a) + b * b
  {
  }

  lemma Distribute(x: int, a: int, b: int)
    ensures x * (a + b) == x * a + x * b
  {
  }

  /** Distances from any point `x` have a non-negative sum of squares. */
  lemma {:induction false} Spread(xs: seq<int>, x: int)
    ensures SumSquares(xs) - 2 * (x * Sum(xs)) + |xs| * (x * x) >= 0
  {
    if xs != [] {
      var n, y := |xs| - 1, xs[|xs| - 1];
      Spread(xs[..n], x);
      DifferenceSquared(x, y);
      Distribute(x, Sum(xs[..n]), y);
      Distribute(x * x, n, 1);
    }
  }

  /** The square of a sum is at most the count times the sum of squares. */
  lemma {:induction false} CauchySchwarz(xs: seq<int>)
    ensures Sum(xs) * Sum(xs) <= |xs| * SumSquares(xs)
  {
    if xs != [] {
      var n, x := |xs| - 1, xs[|xs| - 1];
      var s, q := Sum(xs[..n]), SumSquares(xs[..n]);
      CauchySchwarz(xs[..n]);
      Spread(xs[..n], x);
      SquareSum(s, x);
      Distribute(n + 1, q, x * x);
      Distribute(q, n, 1);
      Distribute(x * x, n, 1);
    }
  }

  lemma {:induction false} SumSquaresNotNegative(xs: seq<int>)
    ensures SumSquares(xs) >= 0
  {
    if xs != [] {
      SumSquaresNotNegative(xs[..|xs| - 1]);
      DifferenceSquared(0, xs[|xs| - 1]);
    }
  }

  lemma SquareOfProduct(a: int, b: int)
    ensures (b * a) * (b * a) == a * a * (b * b)
  {
    assert (b * a) * (b * a) == b * (a * (b * a)) == b * (a * a * b);
  }

  lemma QuotientSquare(u: int, b: int)
    requires b > 0 && u >= 0
    ensures (u / b) * (u / b) * (b * b) <= u * u
  {
    var k := u / b;
    Quotient(u, b);
    Scale(b, 0, k);
    SquareMonotone(b * k, u);
    SquareOfProduct(k, b);
  }

  /** A quotient cut toward zero, squared, times the divisor squared, is at most the dividend squared. */
  lemma TruncSquare(a: int, b: int)
    requires b > 0
    ensures TruncDiv(a, b) * TruncDiv(a, b) * (b * b) <= a * a
  {
    if a >= 0 {
      QuotientSquare(a, b);
    } else {
      QuotientSquare(-a, b);
      Opposite((-a) / b);
      Opposite(a);
    }
  }

  lemma Opposite(a: int)
    ensures (-a) * (-a) == a * a
  {
  }

  lemma SquareMonotone(a: int, b: int)
    requires 0 <= a <= b
    ensures a * a <= b * b
  {
    assert a * a <= a * b <= b * b;
  }

  lemma Scale(n: int, a: int, b: int)
    requires n >= 0 && a <= b
    ensures n * a <= n * b
  {
  }

  lemma Regroup(n: int, a: int)
    ensures n * n * a == n * (n * a)
  {
  }

  lemma Quotient(q: int, n: int)
    requires n > 0
    ensures n * (q / n) <= q < n * (q / n) + n
  {
  }

  /** A square at most an average is at most the average's integer part. */
  lemma SquareBelowQuotient(w: int, q: int, n: int)
    requires n > 0 && w * (n * n) <= n * q
    ensures w <= q / n
  {
    Quotient(q, n);
    Regroup(n, w);
    if w >= q / n + 1 {
      Scale(n, q / n + 1, w);
      Distribute(n, q / n, 1);
      Scale(n, q + 1, n * w);
    }
  }

  /** The variance of any non-empty list of samples, positive or negative, is not
      negative, although both divisions are cut. */
  lemma VarianceNotNegative(xs: seq<int>)
    requires xs != []
    ensures Variance(Sum(xs), SumSquares(xs), |xs|) >= 0
  {
    var n, s, q := |xs|, Sum(xs), SumSquares(xs);
    CauchySchwarz(xs);
    SumSquaresNotNegative(xs);
    TruncSquare(s, n);
    SquareBelowQuotient(TruncDiv(s, n) * TruncDiv(s, n), q, n);
  }

  lemma DistributeMinus(x: int, a: int, b: int)
    ensures x * (a - b) == x * a - x * b
  {
  }

  /** A cut quotient, scaled back up by the divisor squared. */
  lemma CutQuotient(n: int, q: int, k: int)
    requires n > 0 && n * k <= q < n * k + n
    ensures n * q - n * n < n * n * k <= n * q
  {
    Scale(n, n * k, q);
    Scale(n, q + 1, n * k + n);
    Distribute(n, n * k, n);
    Distribute(n, q, 1);
    Regroup(n, k);
  }

  lemma CutSquare(n: int, s: int, m: int)
    requires n > 0 && m >= 0 && n * m <= s < n * m + n
    ensures n * n * (m * m) <= s * s < n * n * (m * m) + (2 * m + 1) * (n * n)
  {
    Scale(n, 0, m);
    SquareMonotone(n * m, s);
    SquareBelow(s, n * m + n);
    SquareOfSum(n, m);
  }

  /** The two cut divisions, as bounds on the cut variance `k - m * m`. */
  lemma CutVariance(n: int, s: int, q: int, m: int, k: int)
    requires n > 0 && m >= 0 && n * m <= s < n * m + n && n * k <= q < n * k + n
    ensures n * q - s * s - n * n < n * n * (k - m * m)
    ensures n * n * (k - m * m) < n * q - s * s + (2 * m + 1) * (n * n)
  {
    CutQuotient(n, q, k);
    CutSquare(n, s, m);
    DistributeMinus(n * n, k, m * m);
  }

  lemma SquareOfSum(n: int, m: int)
    ensures (n * m) * (n * m) == n * n * (m * m)
    ensures (n * m + n) * (n * m + n) == n * n * (m * m) + (2 * m + 1) * (n * n)
  {
    assert (n * m) * n == m * (n * n);
  }

  function Magnitude(a: int): nat {
    if a >= 0 then a else -a
  }

  lemma SignDoesNotMatter(s: int, q: int, n: int)
    requires n > 0 && q >= 0
    ensures var u := Magnitude(s);
      u * u == s * s && Variance(s, q, n) == q / n - (u / n) * (u / n)
  {
    Opposite(s);
    if s < 0 {
      Opposite((-s) / n);
    }
  }

  /** How far it is from the true variance (n * q - s * s) / (n * n), for samples of either
      sign: less than one below, less than twice the mean's magnitude plus one above. */
  lemma VarianceBounds(xs: seq<int>)
    requires xs != []
    ensures var n, s, q := |xs|, Sum(xs), SumSquares(xs);
      && n * q - s * s - n * n < n * n * Variance(s, q, n)
      && n * n * Variance(s, q, n) < n * q - s * s + (2 * (Magnitude(s) / n) + 1) * (n * n)
  {
    var n, s, q := |xs|, Sum(xs), SumSquares(xs);
    SumSquaresNotNegative(xs);
    Quotient(Magnitude(s), n);
    Quotient(q, n);
    SignDoesNotMatter(s, q, n);
    CutVariance(n, Magnitude(s), q, Magnitude(s) / n, q / n);
  }

  lemma SquareBelow(a: int, b: int)
    requires 0 <= a < b
    ensures a * a < b * b
  {
    assert a * a <= a * b;
    assert a * b < b * b;
  }

  // ----------------------------------------------------- 64-bit accumulators

  /** The accumulators a client keeps; sums and squares wrap around at 64 bits. */
  datatype Tally = Tally(n: nat, total: nat, squares: nat, worst: nat)

  const EMPTY := Tally(0, 0, 0, 0)

  function Record(t: Tally, x: nat): Tally {
    Tally(t.n + 1, (t.total + x) % TWO64, (t.squares + x * x) % TWO64,
          if x > t.worst then x else t.worst)
  }

  /** The accumulators after recording the samples one by one. */
  function TallyOf(xs: seq<nat>): Tally {
    if xs == [] then EMPTY else Record(TallyOf(xs[..|xs| - 1]), xs[|xs| - 1])
  }

  lemma TallySnoc(xs: seq<nat>, x: nat)
    ensures TallyOf(xs + [x]) == Record(TallyOf(xs), x)
  {
    assert (xs + [x])[..|xs|] == xs;
  }

  /** What they hold, whatever the samples' size: the count, the sums modulo 2^64, the largest. */
  lemma {:induction false} TallyHolds(xs: seq<nat>)
    ensures TallyOf(xs).n == |xs| && TallyOf(xs).worst == Largest(xs)
    ensures TallyOf(xs).total == Sum(xs) % TWO64 && TallyOf(xs).squares == SumSquares(xs) % TWO64
  {
    if xs != [] {
      var n, x := |xs| - 1, xs[|xs| - 1];
      TallyHolds(xs[..n]);
      WrapAdd(Sum(xs[..n]), x);
      WrapAdd(SumSquares(xs[..n]), x * x);
    }
  }

  lemma WrapAdd(a: int, b: int)
    ensures (a % TWO64 + b) % TWO64 == (a + b) % TWO64
  {
  }

  lemma OneMore(a: int, n: nat, m: int, x: int)
    requires 0 <= a <= n * m && 0 <= x <= m
    ensures 0 <= a + x <= (n + 1) * m
  {
    assert (n + 1) * m == n * m + m;
  }

  lemma {:induction false} SumSquaresBounded(xs: seq<int>, m: nat)
    requires forall i :: 0 <= i < |xs| ==> 0 <= xs[i] <= m
    ensures 0 <= SumSquares(xs) <= |xs| * (m * m)
  {
    if xs != [] {
      var n := |xs| - 1;
      SumSquaresBounded(xs[..n], m);
      SquareMonotone(0, xs[n]);
      SquareMonotone(xs[n], m);
      OneMore(SumSquares(xs[..n]), n, m * m, xs[n] * xs[n]);
    }
  }

  /** The sum of squares fits 64 bits. */
  predicate Exact64(xs: seq<nat>) {
    SumSquares(xs) < TWO64
  }

  lemma {:induction false} SumBelowSquares(xs: seq<nat>)
    ensures 0 <= Sum(xs) <= SumSquares(xs)
  {
    if xs != [] {
      var n := |xs| - 1;
      SumBelowSquares(xs[..n]);
      BelowSquare(xs[n]);
    }
  }

  lemma BelowSquare(x: nat)
    ensures x <= x * x
  {
  }

  lemma WrapIff(a: nat)
    ensures a % TWO64 == a <==> a < TWO64
  {
  }

  /** The accumulators, which wrap around, are exact if and only if the sum of squares fits. */
  lemma ExactIff(xs: seq<nat>)
    ensures TallyOf(xs).n == |xs| && TallyOf(xs).worst == Largest(xs)
    ensures TallyOf(xs).total == Sum(xs) && TallyOf(xs).squares == SumSquares(xs) <==> Exact64(xs)
  {
    TallyHolds(xs);
    SumBelowSquares(xs);
    WrapIff(Sum(xs));
    WrapIff(SumSquares(xs));
  }

  /** And then the variance main prints is the samples' own, and not negative.  Past that it
      says nothing of them: what is left of the two sums modulo 2^64 bears no fixed relation
      to the samples' size, and the difference comes out with either sign. */
  lemma PrintedVariance(xs: seq<nat>)
    requires Exact64(xs) && xs != []
    ensures var t := TallyOf(xs);
      t.n == |xs| && Variance(t.total, t.squares, t.n) == Variance(Sum(xs), SumSquares(xs), |xs|) >= 0
  {
    ExactIff(xs);
    VarianceNotNegative(xs);
  }

  /** A condition known before the sums are: the count times the largest square fits. */
  ghost predicate Fits64(xs: seq<nat>) {
    |xs| * (Largest(xs) * Largest(xs)) < TWO64
  }

  lemma ExactWithin64Bits(xs: seq<nat>)
    requires Fits64(xs)
    ensures Exact64(xs)
  {
    SumSquaresBounded(xs, Largest(xs));
  }

  /** It can be negative: two samples, one of 2^32 microseconds, wrap the sum
      of squares to zero and leave the average's square to be taken from it. */
  lemma VarianceCanUnderflow()
    ensures var t := TallyOf([0x1_0000_0000, 0]);
      t.n == 2 && Variance(t.total, t.squares, t.n) == -0x4000_0000_0000_0000
  {
    var a := 0x1_0000_0000;
    TallySnoc([], a);
    TallySnoc([a], 0);
    assert [] + [a] == [a] && [a] + [0] == [a, 0];
    assert TallyOf([a]) == Tally(1, a, 0, a);
    assert TallyOf([a, 0]) == Tally(2, a, 0, a);
    assert TruncDiv(a, 2) == 0x8000_0000;
  }

  /** The senders square a stall as a signed 64-bit product before they add it: that is the
      square, and not undefined, up to this many microseconds, some fifty minutes. */
  lemma StallSquareFits(x: nat)
    ensures x * x <= INT64_MAX <==> x <= 3037000499
  {
    if x <= 3037000499 {
      SquareMonotone(x, 3037000499);
    } else {
      SquareMonotone(3037000500, x);
    }
  }

  // ------------------------------------------------------- signed latencies

  /** The receiver's accumulators; clocks may disagree, so a latency can be negative. */
  datatype Latencies = Latencies(n: nat, total: int, squares: int, min: int, max: int)

  const INT64_MAX: int := 0x7fff_ffff_ffff_ffff

  function Measure(t: Latencies, x: int): Latencies {
    Latencies(t.n + 1, t.total + x, t.squares + x * x,
              if x < t.min then x else t.min, if x > t.max then x else t.max)
  }

  function LatenciesOf(xs: seq<int>): Latencies {
    if xs == [] then Latencies(0, 0, 0, INT64_MAX, 0)
    else Measure(LatenciesOf(xs[..|xs| - 1]), xs[|xs| - 1])
  }

  lemma LatenciesSnoc(xs: seq<int>, x: int)
    ensures LatenciesOf(xs + [x]) == Measure(LatenciesOf(xs), x)
  {
    assert (xs + [x])[..|xs|] == xs;
  }

  lemma {:induction false} LatenciesHold(xs: seq<int>)
    ensures LatenciesOf(xs) == Latencies(|xs|, Sum(xs), SumSquares(xs), Smallest(xs, INT64_MAX), Largest(xs))
  {
    if xs != [] {
      LatenciesHold(xs[..|xs| - 1]);
    }
  }

  predicate Int64(x: int) {
    -INT64_MAX - 1 <= x <= INT64_MAX
  }

  lemma SquareCovers(x: int)
    ensures -(x * x) <= x <= x * x
  {
    if x < 0 {
      BelowSquare(-x);
      Opposite(x);
    } else {
      BelowSquare(x);
    }
  }

  lemma {:induction false} SumWithinSquares(xs: seq<int>)
    ensures -SumSquares(xs) <= Sum(xs) <= SumSquares(xs)
  {
    if xs != [] {
      var n := |xs| - 1;
      SumWithinSquares(xs[..n]);
      SquareCovers(xs[n]);
    }
  }

  lemma {:induction false} SquaresGrow(xs: seq<int>, k: nat)
    requires k <= |xs|
    ensures 0 <= SumSquares(xs[..k]) <= SumSquares(xs)
  {
    SumSquaresNotNegative(xs[..k]);
    if k < |xs| {
      var n := |xs| - 1;
      SquaresGrow(xs[..n], k);
      assert xs[..n][..k] == xs[..k];
      DifferenceSquared(0, xs[n]);
    } else {
      assert xs[..k] == xs;
    }
  }

  /** The signed accumulators never leave 64 bits on the way if and only if the final sum of
      squares does not; so it is exactly then that C's arithmetic on them is the integers'. */
  lemma NoSignedOverflow(xs: seq<int>)
    ensures (forall k :: 0 <= k <= |xs| ==> Int64(Sum(xs[..k])) && Int64(SumSquares(xs[..k])))
      <==> SumSquares(xs) <= INT64_MAX
  {
    if SumSquares(xs) <= INT64_MAX {
      forall k | 0 <= k <= |xs| ensures Int64(Sum(xs[..k])) && Int64(SumSquares(xs[..k])) {
        SquaresGrow(xs, k);
        SumWithinSquares(xs[..k]);
      }
    } else {
      assert xs[..|xs|] == xs;
    }
  }

  // ------------------------------------------------------------ stall times

  const USECS_PER_SECOND: int := 1000000
  const NSECS_PER_SECOND: int := 1000000000

  datatype Timespec = Timespec(sec: int, nsec: int)

  predicate Normalised(t: Timespec) {
    0 <= t.nsec < NSECS_PER_SECOND
  }

  function Nanoseconds(t: Timespec): int {
    t.sec * NSECS_PER_SECOND + t.nsec
  }

  /** Microseconds from `start` to `end`, by C's division. */
  function DiffTimespecUsec(start: Timespec, end: Timespec): int {
    (end.sec - start.sec) * USECS_PER_SECOND + TruncDiv(end.nsec - start.nsec + 500, 1000)
  }

  /** Time that passed is never measured negative, the error is under 1.5
      microseconds, and it is rounding to the nearest microsecond exactly when the
      sum that is divided is not negative or divides evenly. */
  lemma DiffRounds(start: Timespec, end: Timespec)
    requires Normalised(start) && Normalised(end)
    ensures var d, t := DiffTimespecUsec(start, end), Nanoseconds(end) - Nanoseconds(start);
      && (t >= 0 ==> d >= 0)
      && -500 < 1000 * d - t < 1500
      && (1000 * d - t <= 500 <==> end.nsec - start.nsec + 500 >= 0 || (end.nsec - start.nsec + 500) % 1000 == 0)
  {
  }
}
