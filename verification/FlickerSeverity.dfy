/** Short- and long-term flicker severity, and the ten-minute classification
    interval updated in place. */
module FlickerSeverity {
  import opened Words
  import opened FlickerClassifier
  import opened IntegerRoot

  const CLASSIFIER_SAMPLES: u32 := 1_200_000
  const PST_LIMIT: nat := 0x10_0000

  // ---- Short term --------------------------------------------------------------

  ghost function P(h: seq<nat>, total: nat, tenths: nat): nat
    requires |h| == BINS
  {
    PercentileOf(h, total, tenths)
  }

  function Average3(a: nat, b: nat, c: nat): nat { (a + b + c) / 3 }

  function Average5(a: nat, b: nat, c: nat, d: nat, e: nat): nat { (a + b + c + d + e) / 5 }

  function Combine(p01: nat, p1s: nat, p3s: nat, p10s: nat, p50s: nat): nat {
    (314 * p01 + 525 * p1s + 657 * p3s + 2800 * p10s + 800 * p50s) / 10000
  }

  // The weighted sum of smoothed percentiles under the square root.
  ghost function Weighted(h: seq<nat>, total: nat): nat
    requires |h| == BINS
  {
    Combine(P(h, total, 1),
      Average3(P(h, total, 7), P(h, total, 10), P(h, total, 15)),
      Average3(P(h, total, 22), P(h, total, 30), P(h, total, 40)),
      Average5(P(h, total, 60), P(h, total, 80), P(h, total, 100), P(h, total, 130), P(h, total, 170)),
      Average3(P(h, total, 300), P(h, total, 500), P(h, total, 800)))
  }

  lemma PercentileBelow(h: seq<nat>, total: nat, tenths: nat)
    requires |h| == BINS
    ensures PercentileOf(h, total, tenths) < HIGHEST
  {
    var r := RankBin(h, Target(total, tenths), BINS);
    RankBelow(h, Target(total, tenths), BINS);
    if r.Some? { MidpointFits(r.value); }
  }

  lemma {:induction false} RankBelow(h: seq<nat>, k: nat, reverse: nat)
    requires reverse <= |h|
    ensures RankBin(h, k, reverse).Some? ==> RankBin(h, k, reverse).value < reverse
  {
    if reverse > 0 { RankBelow(h, k, reverse - 1); }
  }

  method Level(histogram: seq<u32>, total: u32, tenths: u32) returns (level: nat)
    requires |histogram| == BINS
    ensures level == P(histogram, total, tenths) < HIGHEST
  {
    PercentileBelow(histogram, total, tenths);
    level := Percentile(histogram, total, tenths);
  }

  method ShortTerm(histogram: seq<u32>, total: u32) returns (pst: u32)
    requires |histogram| == BINS
    ensures IsRoot(Weighted(histogram, total) * B16, pst) && pst < PST_LIMIT
  {
    hide P, IsRoot;
    var p01 := Level(histogram, total, 1);
    var p07 := Level(histogram, total, 7);
    var p10 := Level(histogram, total, 10);
    var p15 := Level(histogram, total, 15);
    var p22 := Level(histogram, total, 22);
    var p30 := Level(histogram, total, 30);
    var p40 := Level(histogram, total, 40);
    var p60 := Level(histogram, total, 60);
    var p80 := Level(histogram, total, 80);
    var p100 := Level(histogram, total, 100);
    var p130 := Level(histogram, total, 130);
    var p170 := Level(histogram, total, 170);
    var p300 := Level(histogram, total, 300);
    var p500 := Level(histogram, total, 500);
    var p800 := Level(histogram, total, 800);
    var weighted := Combine(p01, Average3(p07, p10, p15), Average3(p22, p30, p40),
      Average5(p60, p80, p100, p130, p170), Average3(p300, p500, p800));
    pst := IntegerRoot.IntegerSqrt(weighted * B16);
    RootBelow(weighted * B16, pst);
  }

  lemma RootBelow(n: nat, root: nat)
    requires IsRoot(n, root) && n < PST_LIMIT * PST_LIMIT
    ensures root < PST_LIMIT
  {
    if root >= PST_LIMIT { MulLeBoth(PST_LIMIT, root, PST_LIMIT, root); }
  }

  // ---- Long term -------------------------------------------------------------------

  // The cube with sixteen fraction bits, truncated at each product.
  function Cube(value: nat): nat { value * value / B16 * value / B16 }

  lemma CubeMonotone(a: nat, b: nat)
    requires a <= b
    ensures Cube(a) <= Cube(b)
  {
    MulLeBoth(a, b, a, b);
    DivMonotone(a * a, b * b, B16);
    MulLeBoth(a * a / B16, b * b / B16, a, b);
    DivMonotone(a * a / B16 * a, b * b / B16 * b, B16);
  }

  lemma DivMonotone(n: nat, m: nat, d: nat)
    requires d > 0 && n <= m
    ensures n / d <= m / d
  {
    assert n == n / d * d + n % d && m == m / d * d + m % d;
    if m / d < n / d { MulLe(m / d + 1, n / d, d); }
  }

  // No short-term severity is large enough for a cube to leave 64 bits.
  lemma CubeFits(value: nat)
    requires value < PST_LIMIT
    ensures value * value < B64 && value * value / B16 * value < B64 && Cube(value) <= 0x1000_0000_0000
  {
    MulLeBoth(value, PST_LIMIT, value, PST_LIMIT);
    DivMonotone(value * value, PST_LIMIT * PST_LIMIT, B16);
    MulLeBoth(value * value / B16, PST_LIMIT * PST_LIMIT / B16, value, PST_LIMIT);
    DivMonotone(value * value / B16 * value, PST_LIMIT * PST_LIMIT / B16 * PST_LIMIT, B16);
  }

  method CubeQ16(value: u32) returns (cube: u64)
    requires value < PST_LIMIT
    ensures cube == Cube(value) <= 0x1000_0000_0000
  {
    CubeFits(value);
    var square: u64 := value * value;
    var product: u64 := square / B16 * value;
    cube := product / B16;
  }

  ghost function CubeSum(pst: seq<u32>): nat {
    if pst == [] then 0 else CubeSum(pst[..|pst| - 1]) + Cube(pst[|pst| - 1])
  }

  ghost predicate Severities(pst: seq<u32>) {
    |pst| == 12 && forall k :: 0 <= k < 12 ==> pst[k] < PST_LIMIT
  }

  lemma {:induction false} CubeSumBetween(pst: seq<u32>, least: nat, most: nat)
    requires forall k :: 0 <= k < |pst| ==> least <= pst[k] <= most
    ensures |pst| * Cube(least) <= CubeSum(pst) <= |pst| * Cube(most)
  {
    hide Cube;
    if pst != [] {
      var n := |pst| - 1;
      CubeSumBetween(pst[..n], least, most);
      CubeMonotone(least, pst[n]);
      CubeMonotone(pst[n], most);
    }
  }

  // The largest severity whose cube does not exceed the mean of the cubes,
  // found by bisection; so never below the least nor above the greatest.
  method LongTerm(pst: seq<u32>) returns (plt: u32)
    requires Severities(pst)
    ensures exists k :: 0 <= k < 12 && plt <= pst[k]
    ensures exists k :: 0 <= k < 12 && pst[k] <= plt
    ensures Cube(plt) <= CubeSum(pst) / 12
    ensures (forall k :: 0 <= k < 12 ==> pst[k] <= plt) || CubeSum(pst) / 12 < Cube(plt + 1)
  {
    hide Cube;
    var sum: u64, greatest: u32 := 0, pst[0];
    ghost var at, least := 0, 0;
    for k := 0 to 12
      invariant sum == CubeSum(pst[..k]) <= k * 0x1000_0000_0000
      invariant at < 12 && greatest == pst[at] && forall j :: 0 <= j < k ==> pst[j] <= greatest
      invariant least < 12 && forall j :: 0 <= j < k ==> pst[least] <= pst[j]
    {
      assert pst[..k + 1][..k] == pst[..k];
      var cube := CubeQ16(pst[k]);
      sum := sum + cube;
      if pst[k] > greatest { greatest, at := pst[k], k; }
      if pst[k] < pst[least] { least := k; }
    }
    assert pst[..12] == pst;
    var mean := sum / 12;
    plt := Bisect(mean, greatest);
    CubeSumBetween(pst, pst[least], greatest);
    assert Cube(pst[least]) <= mean;
    if plt < pst[least] { CubeMonotone(plt + 1, pst[least]); }
    assert plt <= pst[at] && pst[least] <= plt;
  }

  method Bisect(mean: u64, greatest: u32) returns (root: u32)
    requires greatest < PST_LIMIT
    ensures root <= greatest && Cube(root) <= mean && (root == greatest || mean < Cube(root + 1))
  {
    var low: u32, high: u32 := 0, greatest;
    assert Cube(0) == 0;
    hide Cube;
    while low < high
      invariant low <= high <= greatest && Cube(low) <= mean
      invariant high == greatest || mean < Cube(high + 1)
    {
      var middle := low + (high - low + 1) / 2;
      var cube := CubeQ16(middle);
      if cube <= mean {
        low := middle;
      } else {
        high := middle - 1;
      }
    }
    root := low;
  }

  // ---- The classification interval ------------------------------------------------------

  class Interval {
    const histogram: array<u32>
    var ticks: nat
    var classified: nat
    // What spoils this interval, and what spoils every one until the reset.
    var tainted: bool
    var overflowed: bool
    // Every reading classified in this interval, whether anything in it spoiled
    // it, and since the reset the intervals completed and the faults noted.
    ghost var readings: seq<u32>
    ghost var spoiled: bool
    ghost var intervals: nat
    ghost var faults: nat

    ghost predicate Valid()
      reads this, histogram
    {
      && histogram.Length == BINS
      && |readings| == classified <= ticks < CLASSIFIER_SAMPLES
      && (forall b :: 0 <= b < BINS ==> histogram[b] == Histogram(readings)[b])
      && (!spoiled ==> classified == ticks && forall k :: 0 <= k < |readings| ==> !Outside(readings[k]))
      && (tainted <==> intervals == 0 || spoiled)
      && (overflowed <==> faults > 0)
    }

    constructor ()
      ensures Valid() && readings == [] && intervals == faults == 0 && fresh(histogram)
    {
      histogram := new u32[BINS](_ => 0);
      ticks, classified, tainted, overflowed := 0, 0, true, false;
      readings, spoiled, intervals, faults := [], false, 0, 0;
    }

    method Clear()
      requires histogram.Length == BINS
      modifies this`ticks, this`classified, this`readings, histogram
      ensures readings == [] && ticks == classified == 0
      ensures forall b :: 0 <= b < BINS ==> histogram[b] == Histogram(readings)[b]
    {
      forall b | 0 <= b < BINS { histogram[b] := 0; }
      ticks, classified, readings := 0, 0, [];
    }

    // A runtime reset begins with a discontinuity, so the interval after it
    // is never valid; it is what clears an arithmetic overflow.
    method Reset()
      requires histogram.Length == BINS
      modifies this, histogram
      ensures Valid() && readings == [] && intervals == faults == 0
    {
      Clear();
      tainted, overflowed := true, false;
      spoiled, intervals, faults := false, 0, 0;
    }

    // A discontinuity spoils the interval in progress.
    method Taint()
      requires Valid()
      modifies this`tainted, this`spoiled
      ensures Valid() && tainted && spoiled
    {
      tainted, spoiled := true, true;
    }

    // An arithmetic overflow spoils this interval and every later one.
    method Overflow()
      requires Valid()
      modifies this`overflowed, this`faults
      ensures Valid() && faults == old(faults) + 1
    {
      overflowed, faults := true, faults + 1;
    }

    // A reading lands in its bin; the counter would saturate, but an
    // interval is too short for that.
    method Count(reading: u32)
      requires Valid()
      modifies this`tainted, this`spoiled, this`classified, this`readings, histogram
      ensures readings == old(readings) + [reading] && classified == old(classified) + 1
      ensures tainted == (old(tainted) || Outside(reading)) && spoiled == (old(spoiled) || Outside(reading))
      ensures forall b :: 0 <= b < BINS ==> histogram[b] == Histogram(readings)[b]
    {
      hide Histogram, BinOf;
      HistogramAppend(readings, reading);
      CountBelow(readings, BinOf(reading));
      classified := classified + 1;
      if Outside(reading) {
        tainted, spoiled := true, true;
      }
      var bin := BinOf(reading);
      var (next, full) := CountUp(histogram[bin]);
      histogram[bin] := next;
      tainted, spoiled := tainted || full, spoiled || full;
      readings := readings + [reading];
    }

    // One tick: a phase that gave no reading spoils the interval, and ticks
    // while the filters settle are neither counted nor classified. A severity
    // is published for a complete interval that nothing spoiled, if it is not
    // the first since the reset and no overflow was noted since.
    method Tick(reading: Option<u32>, settling: bool) returns (completed: Option<Option<u32>>)
      requires Valid()
      modifies this, histogram
      ensures Valid()
      ensures completed.Some? <==> !settling && old(ticks) + 1 == CLASSIFIER_SAMPLES
      ensures completed.Some? ==> readings == [] && ticks == 0 && !spoiled && intervals == old(intervals) + 1
      ensures faults == old(faults)
      ensures completed.None? ==>
        && ticks == old(ticks) + (if settling then 0 else 1) && intervals == old(intervals)
        && readings == old(readings) + (if settling || reading.None? then [] else [reading.value])
        && spoiled == (old(spoiled) || reading.None? || (!settling && Outside(reading.value)))
      ensures completed.Some? ==>
        var all := old(readings) + (if reading.None? then [] else [reading.value]);
        && (completed.value.Some? <==>
            && old(faults) == 0 && old(intervals) > 0
            && !(old(spoiled) || reading.None? || Outside(reading.value)))
        && (completed.value.Some? ==>
            && |all| == CLASSIFIER_SAMPLES
            && (forall k :: 0 <= k < |all| ==> !Outside(all[k]))
            && IsRoot(Weighted(Histogram(all), |all|) * B16, completed.value.value))
    {
      hide Histogram, BinOf, Weighted, IsRoot;
      completed := None;
      if reading.None? {
        tainted, spoiled := true, true;
      } else if !settling {
        Count(reading.value);
      }
      if settling {
        return;
      }
      ticks := ticks + 1;
      if ticks >= CLASSIFIER_SAMPLES {
        var severity := Conclude();
        completed := Some(severity);
        Clear();
        tainted, spoiled, intervals := false, false, intervals + 1;
      }
    }

    method Conclude() returns (severity: Option<u32>)
      requires histogram.Length == BINS && |readings| == classified <= CLASSIFIER_SAMPLES
      requires !tainted ==> classified == CLASSIFIER_SAMPLES
      requires forall b :: 0 <= b < BINS ==> histogram[b] == Histogram(readings)[b]
      ensures severity.Some? <==> !tainted && !overflowed
      ensures severity.Some? ==> IsRoot(Weighted(Histogram(readings), |readings|) * B16, severity.value)
    {
      hide Histogram, Weighted, IsRoot, Tail, AtLeast;
      assert histogram[..] == Histogram(readings);
      TailNext(Histogram(readings), 0);
      var total: nat := 0;
      for b := BINS downto 0
        invariant total == Tail(Histogram(readings), b)
      {
        TailNext(Histogram(readings), b);
        total := total + histogram[b];
      }
      TailCounts(readings, 0);
      AllAtLeastZero(readings);
      severity := None;
      if !tainted && !overflowed && classified == CLASSIFIER_SAMPLES && total == CLASSIFIER_SAMPLES {
        var pst := ShortTerm(histogram[..], CLASSIFIER_SAMPLES);
        severity := Some(pst);
      }
    }
  }

  lemma TailNext(h: seq<nat>, b: nat)
    requires b < |h|
    ensures Tail(h, b) == h[b] + Tail(h, b + 1)
    ensures Tail(h, |h|) == 0
  {
  }

  function CountUp(count: u32): (u32, bool) {
    if count == B32 - 1 then (count, true) else (count + 1, false)
  }

  lemma HistogramAppend(readings: seq<u32>, x: u32)
    ensures Histogram(readings + [x]) == Histogram(readings)[BinOf(x) := Histogram(readings)[BinOf(x)] + 1]
  {
    assert (readings + [x])[..|readings|] == readings;
  }

  lemma {:induction false} CountBelow(readings: seq<u32>, b: nat)
    requires b < BINS
    ensures Histogram(readings)[b] <= |readings|
  {
    hide BinOf;
    if readings != [] { CountBelow(readings[..|readings| - 1], b); }
  }
}
