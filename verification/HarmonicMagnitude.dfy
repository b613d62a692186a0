/** Finalised harmonic magnitudes: the root of the mean square, digit by digit. */
module HarmonicMagnitude {
  import opened Words
  import opened WideArithmetic

  const MAGNITUDE_LIMIT: int := 0x100_0000_0000

  ghost function SumSquares(magnitudes: seq<nat>): nat {
    if magnitudes == [] then 0
    else SumSquares(magnitudes[..|magnitudes| - 1]) + magnitudes[|magnitudes| - 1] * magnitudes[|magnitudes| - 1]
  }

  lemma SumSquaresAppend(magnitudes: seq<nat>, m: nat)
    ensures SumSquares(magnitudes + [m]) == SumSquares(magnitudes) + m * m
  {
    assert (magnitudes + [m])[..|magnitudes|] == magnitudes;
  }

  // `root` is the integer root of the integer mean of `squares` over `n`.
  ghost predicate MeanRoot(squares: nat, n: nat, root: nat)
    requires n > 0
  {
    root * root <= squares / n < (root + 1) * (root + 1)
  }

  method FinalizeMagnitude(squareSum: Wide, contributors: u32) returns (magnitude: u64)
    requires contributors > 0
    ensures MeanRoot(Value(squareSum), contributors, magnitude)
  {
    var mean := DivideU32(squareSum, contributors);
    magnitude := IntegerSqrt(mean);
  }

  // A square is added; on overflow the sum sticks at the largest value and the
  // tier's arithmetic flag is raised.
  function AddSaturating(sum: Wide, square: Wide): (r: (Wide, bool))
    ensures r.1 <==> Value(sum) + Value(square) >= B128
    ensures Value(r.0) == Min(Value(sum) + Value(square), B128 - 1)
  {
    var (total, exact) := AddChecked(sum, square);
    if exact then
      ExactOrWrapped(Value(sum), Value(square));
      (total, false)
    else (SATURATED, true)
  }

  function AccumulateSquare(sum: Wide, magnitude: u64): (r: (Wide, bool))
    ensures r.1 <==> Value(sum) + magnitude * magnitude >= B128
    ensures Value(r.0) == Min(Value(sum) + magnitude * magnitude, B128 - 1)
  {
    AddSaturating(sum, MultiplyU64(magnitude, magnitude))
  }

  lemma ExactOrWrapped(x: nat, y: nat)
    requires x + y < B128
    ensures (x + y) % B128 == x + y
  {
  }

  lemma SquareLimit(m: nat)
    requires m < MAGNITUDE_LIMIT
    ensures m * m <= 0x1_0000_0000_0000_0000_0000
  {
    MulLeBoth(m, MAGNITUDE_LIMIT, m, MAGNITUDE_LIMIT);
  }

  // Forty-bit magnitudes and fewer than 2^32 contributors stay below 2^112.
  lemma {:induction false} SquaresFit(magnitudes: seq<nat>)
    requires |magnitudes| < B32
    requires forall k :: 0 <= k < |magnitudes| ==> magnitudes[k] < MAGNITUDE_LIMIT
    ensures SumSquares(magnitudes) <= |magnitudes| * 0x1_0000_0000_0000_0000_0000
    ensures SumSquares(magnitudes) < B128
  {
    if magnitudes != [] {
      SquaresFit(magnitudes[..|magnitudes| - 1]);
      SquareLimit(magnitudes[|magnitudes| - 1]);
    }
  }

  lemma {:induction false} SquaresBetween(magnitudes: seq<nat>, low: nat, high: nat)
    requires forall k :: 0 <= k < |magnitudes| ==> low <= magnitudes[k] <= high
    ensures |magnitudes| * (low * low) <= SumSquares(magnitudes) <= |magnitudes| * (high * high)
  {
    if magnitudes != [] {
      var last := magnitudes[|magnitudes| - 1];
      SquaresBetween(magnitudes[..|magnitudes| - 1], low, high);
      SquareMonotone(low, last);
      SquareMonotone(last, high);
      Distribute(|magnitudes| - 1, low * low);
      Distribute(|magnitudes| - 1, high * high);
    }
  }

  lemma Distribute(n: nat, x: nat)
    ensures (n + 1) * x == n * x + x
  {
  }

  lemma MeanBetween(squares: nat, n: nat, low: nat, high: nat)
    requires n > 0 && n * low <= squares <= n * high
    ensures low <= squares / n <= high
  {
    var q := squares / n;
    assert q * n <= squares < (q + 1) * n;
    if q < low { MulLe(q + 1, low, n); }
    if q > high { MulLe(high + 1, q, n); }
  }

  lemma RootBetween(mean: nat, low: nat, high: nat, root: nat)
    requires low * low <= mean <= high * high
    requires root * root <= mean < (root + 1) * (root + 1)
    ensures low <= root <= high
  {
    if root < low { SquareLess(root, low); }
    if root > high { SquareLess(high, root); }
  }

  lemma SquareLess(a: nat, b: nat)
    requires a < b
    ensures a * a < (a + 1) * (a + 1) <= b * b
  {
    SquareMonotone(a + 1, b);
  }

  // A finalised magnitude lies between the extremes of its contributors.
  lemma MagnitudeBetween(magnitudes: seq<nat>, low: nat, high: nat, root: nat)
    requires magnitudes != [] && MeanRoot(SumSquares(magnitudes), |magnitudes|, root)
    requires forall k :: 0 <= k < |magnitudes| ==> low <= magnitudes[k] <= high
    ensures low <= root <= high
  {
    SquaresBetween(magnitudes, low, high);
    MeanBetween(SumSquares(magnitudes), |magnitudes|, low * low, high * high);
    RootBetween(SumSquares(magnitudes) / |magnitudes|, low, high, root);
  }

  // Equal inputs are a fixed point of the finaliser.
  lemma MagnitudeFixedPoint(magnitudes: seq<nat>, m: nat, root: nat)
    requires magnitudes != [] && MeanRoot(SumSquares(magnitudes), |magnitudes|, root)
    requires forall k :: 0 <= k < |magnitudes| ==> magnitudes[k] == m
    ensures root == m
  {
    MagnitudeBetween(magnitudes, m, m, root);
  }

  // The whole accumulation of a run of magnitudes, from the cleared tier.
  ghost function Accumulated(magnitudes: seq<u64>): (Wide, bool) {
    if magnitudes == [] then (ZERO, false)
    else
      var (sum, overflow) := Accumulated(magnitudes[..|magnitudes| - 1]);
      var (next, more) := AccumulateSquare(sum, magnitudes[|magnitudes| - 1]);
      (next, overflow || more)
  }

  // With 40-bit magnitudes and fewer than 2^32 contributors the overflow path
  // is never taken and the limbs hold the exact sum of squares.
  lemma {:induction false} AccumulationExact(magnitudes: seq<u64>)
    requires |magnitudes| < B32
    requires forall k :: 0 <= k < |magnitudes| ==> magnitudes[k] < MAGNITUDE_LIMIT
    ensures !Accumulated(magnitudes).1
    ensures Value(Accumulated(magnitudes).0) == SumSquares(magnitudes)
  {
    SquaresFit(magnitudes);
    if magnitudes != [] {
      AccumulationExact(magnitudes[..|magnitudes| - 1]);
    }
  }
}
