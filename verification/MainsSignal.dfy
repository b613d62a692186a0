/** The mains-signalling correlator: decimated correlation over whole 200 ms
    windows, and the magnitude-weighted frequency estimate. One phase. */
module MainsSignal {
  import opened Words
  import opened PhaseVector

  const PROBES: nat := 7
  const MAXIMUM_ANALYSED: nat := 6400
  const TERM: nat := 0x1_0000_0000_0000

  predicate SupportedRate(rate: u32) {
    rate == 2000 || rate == 4000 || rate == 8000 || rate == 16000 || rate == 32000 || rate == 64000 || rate == 128000
  }

  function AnalysisRate(rate: u32): u32 { Min(rate, 32000) }

  // ---- Oscillators -----------------------------------------------------------

  // Seventeen fraction bits, truncated toward zero.
  function SineQ17(table: seq<int>, phase: u32): (value: int)
    requires QuarterTable(table)
    ensures -0x2_0000 <= value <= 0x2_0000
  {
    var wide := SineQ37(table, phase);
    TruncBounded(wide);
    TruncDiv(wide, 0x10_0000)
  }

  lemma TruncBounded(wide: int)
    requires Abs(wide) <= 0x20_0000_0000
    ensures -0x2_0000 <= TruncDiv(wide, 0x10_0000) <= 0x2_0000
  {
  }

  function CosineQ17(table: seq<int>, phase: u32): (value: int)
    requires QuarterTable(table)
    ensures -0x2_0000 <= value <= 0x2_0000
  {
    SineQ17(table, Add32(phase, 0x4000_0000))
  }

  // The nearest phase step to frequency / rate, in turns of 2^32.
  function PhaseStep(carrier: u32, bandwidth: u32, quarters: int, rate: u32): u32 {
    var quarterMillihertz := carrier * 4 + bandwidth * quarters;
    if quarterMillihertz <= 0 || rate == 0 then 0
    else
      var denominator: nat := rate * 4000;
      Step(quarterMillihertz, denominator)
  }

  function Step(frequency: nat, denominator: nat): u32
    requires denominator > 0
  {
    (frequency * B32 + denominator / 2) / denominator % B32
  }

  // An accepted carrier sits below half the analysis rate, so the step is below
  // half a turn, is not truncated, and is the nearest one.
  lemma StepIsNearest(frequency: nat, rate: u32)
    requires rate > 0 && frequency <= rate * 2000
    ensures var step := Step(frequency, rate * 4000);
            && step <= 0x8000_0000
            && Abs(step * (rate * 4000) - frequency * B32) * 2 <= rate * 4000
  {
    NearestQuotient(frequency * B32, rate * 4000);
    NotTruncated(frequency * B32, rate * 4000);
  }

  lemma NotTruncated(n: nat, d: nat)
    requires d > 0 && 2 * n <= d * B32
    ensures 0 <= (n + d / 2) / d <= 0x8000_0000
  {
    DivUnique(d * 0x8000_0000 + d / 2, d, 0x8000_0000);
    var q := (n + d / 2) / d;
    Floor(n + d / 2, d);
    if q > 0x8000_0000 { MulLe(0x8000_0001, q, d); }
  }

  lemma NearestQuotient(n: nat, d: nat)
    requires d > 0
    ensures Abs((n + d / 2) / d * d - n) * 2 <= d
  {
    var m := n + d / 2;
    assert m == m / d * d + m % d;
  }

  // Every probe of an accepted profile is such a frequency.
  lemma ProbeBelowNyquist(carrier: u32, bandwidth: u32, quarters: int, rate: u32)
    requires SupportedRate(rate) && ValidProfile(carrier, bandwidth) && -4 <= quarters <= 4
    requires carrier + bandwidth < rate * 500
    ensures 0 < carrier * 4 + bandwidth * quarters <= AnalysisRate(rate) * 2000
  {
    MulLe(quarters, 4, bandwidth);
    MulLe(-4, quarters, bandwidth);
  }

  // ---- Correlation -------------------------------------------------------------

  function PhaseAt(start: u32, step: u32, k: nat): u32 { (start + k * step) % B32 }

  lemma PhaseNext(start: u32, step: u32, k: nat)
    ensures Add32(PhaseAt(start, step, k), step) == PhaseAt(start, step, k + 1)
    ensures PhaseAt(start, step, 0) == start
  {
    Distribute(k, 1, step);
    ModAdd(start + k * step, step, B32);
  }

  // The in-phase and quadrature correlation of the analysed voltages with an
  // oscillator that starts at `start` and advances one step per voltage.
  ghost function InPhase(table: seq<int>, window: seq<i32>, start: u32, step: u32): int
    requires QuarterTable(table)
  {
    if window == [] then 0
    else
      var k := |window| - 1;
      InPhase(table, window[..k], start, step) + window[k] * CosineQ17(table, PhaseAt(start, step, k))
  }

  ghost function Quadrature(table: seq<int>, window: seq<i32>, start: u32, step: u32): int
    requires QuarterTable(table)
  {
    if window == [] then 0
    else
      var k := |window| - 1;
      Quadrature(table, window[..k], start, step) - window[k] * SineQ17(table, PhaseAt(start, step, k))
  }

  lemma TermBound(voltage: i32, oscillator: int)
    requires -0x2_0000 <= oscillator <= 0x2_0000
    ensures Abs(voltage * oscillator) <= TERM
  {
    MulLeBoth(Abs(voltage), 0x8000_0000, Abs(oscillator), 0x2_0000);
    SignedProduct(voltage, oscillator);
  }

  lemma SignedProduct(x: int, y: int)
    ensures x * y == Abs(x) * Abs(y) || x * y == -(Abs(x) * Abs(y))
  {
  }

  // Each correlation sum is bounded by its count of terms.
  lemma {:induction false} CorrelationBound(table: seq<int>, window: seq<i32>, start: u32, step: u32)
    requires QuarterTable(table)
    ensures Abs(InPhase(table, window, start, step)) <= |window| * TERM
    ensures Abs(Quadrature(table, window, start, step)) <= |window| * TERM
  {
    hide CosineQ17, SineQ17, QuarterTable, PhaseAt;
    if window != [] {
      var k := |window| - 1;
      CorrelationBound(table, window[..k], start, step);
      TermBound(window[k], CosineQ17(table, PhaseAt(start, step, k)));
      TermBound(window[k], SineQ17(table, PhaseAt(start, step, k)));
    }
  }

  // One window's worth of terms therefore never leaves 64 bits.
  lemma WindowFits(table: seq<int>, window: seq<i32>, start: u32, step: u32)
    requires QuarterTable(table) && |window| <= MAXIMUM_ANALYSED
    ensures I64_MIN <= InPhase(table, window, start, step) <= I64_MAX
    ensures I64_MIN <= Quadrature(table, window, start, step) <= I64_MAX
  {
    hide InPhase, Quadrature, QuarterTable;
    CorrelationBound(table, window, start, step);
  }

  lemma CorrelationAppend(table: seq<int>, window: seq<i32>, voltage: i32, start: u32, step: u32)
    requires QuarterTable(table)
    ensures var phase := PhaseAt(start, step, |window|);
            && InPhase(table, window + [voltage], start, step)
               == InPhase(table, window, start, step) + voltage * CosineQ17(table, phase)
            && Quadrature(table, window + [voltage], start, step)
               == Quadrature(table, window, start, step) - voltage * SineQ17(table, phase)
  {
    hide CosineQ17, SineQ17, QuarterTable, PhaseAt;
    assert (window + [voltage])[..|window|] == window;
  }

  // The mean of a correlation fits 32 bits.
  function MeanComponent(sum: i64, count: nat): int {
    if count == 0 then 0
    else if sum < 0 then -(Abs(sum) / count / 0x2_0000)
    else Abs(sum) / count / 0x2_0000
  }

  lemma MeanFits(sum: i64, count: nat)
    requires count > 0 && Abs(sum) <= count * TERM
    ensures Abs(MeanComponent(sum, count)) <= 0x8000_0000
    ensures MeanComponent(sum, count) == TruncDiv(TruncDiv(sum, count), 0x2_0000)
  {
    DivAtMost(Abs(sum), count, TERM);
  }

  // The means of a window's sums: truncated averages of the correlations,
  // scaled back from seventeen fraction bits.
  ghost predicate IsMean(mean: int, sum: int, count: nat) {
    && count > 0 && mean == TruncDiv(TruncDiv(sum, count), 0x2_0000)
    && -0x8000_0000 <= mean <= 0x8000_0000
  }

  lemma MeansOf(table: seq<int>, window: seq<i32>, start: u32, step: u32, count: nat)
    requires QuarterTable(table) && |window| <= count <= MAXIMUM_ANALYSED && count > 0
    ensures var sum := InPhase(table, window, start, step);
            I64_MIN <= sum <= I64_MAX && IsMean(MeanComponent(sum, count), sum, count)
    ensures var sum := Quadrature(table, window, start, step);
            I64_MIN <= sum <= I64_MAX && IsMean(MeanComponent(sum, count), sum, count)
  {
    WindowFits(table, window, start, step);
    CorrelationBound(table, window, start, step);
    MulLe(|window|, count, TERM);
    var i, q := InPhase(table, window, start, step), Quadrature(table, window, start, step);
    hide InPhase, Quadrature, QuarterTable;
    MeanFits(i, count);
    MeanFits(q, count);
  }

  lemma DivAtMost(n: nat, d: nat, q: nat)
    requires d > 0 && n <= d * q
    ensures 0 <= n / d <= q
  {
    assert n == n / d * d + n % d;
    if n / d > q { MulLe(q + 1, n / d, d); }
  }

  // ---- The frequency estimate ------------------------------------------------------

  // Adds and clamps, reporting whether the exact sum fitted.
  function AddSaturating(x: i64, y: i64): (i64, bool) {
    var z: int := x + y as int;
    (Clamp64(z), I64_MIN <= z <= I64_MAX)
  }

  function Weighted(weights: seq<nat>): int {
    if weights == [] then 0
    else Weighted(weights[..|weights| - 1]) + weights[|weights| - 1] * (|weights| - 1 - 2)
  }

  function TotalWeight(weights: seq<nat>): nat {
    if weights == [] then 0 else TotalWeight(weights[..|weights| - 1]) + weights[|weights| - 1]
  }

  const PROFILE_LIMIT: nat := 12_500_000

  predicate ValidProfile(carrier: u32, bandwidth: u32) {
    4 <= bandwidth < carrier && carrier + bandwidth < PROFILE_LIMIT
  }

  ghost predicate Weights(weights: seq<nat>) {
    |weights| == 5 && forall k :: 0 <= k < 5 ==> weights[k] <= 3 * (B32 - 1)
  }

  lemma {:induction false} WeightedBound(weights: seq<nat>)
    requires |weights| <= 5
    ensures Abs(Weighted(weights)) <= 2 * TotalWeight(weights)
  {
    if weights != [] {
      var n := |weights| - 1;
      WeightedBound(weights[..n]);
      OffsetBound(weights[n], n - 2);
    }
  }

  lemma OffsetBound(w: nat, offset: int)
    requires -2 <= offset <= 2
    ensures Abs(w * offset) <= 2 * w
  {
  }

  lemma {:induction false} TotalBound(weights: seq<nat>)
    requires forall k :: 0 <= k < |weights| ==> weights[k] <= 3 * (B32 - 1)
    ensures TotalWeight(weights) <= |weights| * (3 * (B32 - 1))
  {
    if weights != [] { TotalBound(weights[..|weights| - 1]); }
  }

  lemma ProductBound(x: int, limit: nat, bandwidth: nat)
    requires Abs(x) <= limit && bandwidth < PROFILE_LIMIT
    ensures Abs(x * bandwidth) <= limit * PROFILE_LIMIT
    ensures limit <= 0x40_0000_0000 ==> I64_MIN <= x * bandwidth <= I64_MAX
  {
    MulLeBoth(Abs(x), limit, bandwidth, PROFILE_LIMIT);
    SignedProduct(x, bandwidth);
  }

  lemma {:induction false} PrefixTotal(weights: seq<nat>, k: nat)
    requires k <= |weights|
    ensures TotalWeight(weights[..k]) <= TotalWeight(weights)
    decreases |weights|
  {
    if k < |weights| {
      assert weights[..|weights| - 1][..k] == weights[..k];
      PrefixTotal(weights[..|weights| - 1], k);
    } else {
      assert weights[..k] == weights;
    }
  }

  // The offset is at most half a bandwidth either way.
  lemma OffsetWithinHalf(sum: int, total: nat, bandwidth: nat)
    requires total > 0 && Abs(sum) <= 2 * total
    ensures Abs(TruncDiv(sum * bandwidth, total * 4)) <= bandwidth / 2
  {
    var n := Abs(sum) * bandwidth;
    MulLe(Abs(sum), 2 * total, bandwidth);
    SignedProduct(sum, bandwidth);
    assert Abs(bandwidth) == bandwidth;
    HalfQuotient(n, 2 * total, bandwidth);
    TruncOfSigned(sum * bandwidth, n, total * 4);
  }

  lemma TruncOfSigned(x: int, n: int, d: nat)
    requires d > 0 && n >= 0 && (x == n || x == -n)
    ensures Abs(TruncDiv(x, d)) == Abs(n / d)
  {
  }

  lemma HalfQuotient(n: nat, t: nat, bandwidth: nat)
    requires t > 0 && n <= t * bandwidth
    ensures 0 <= n / (2 * t) <= bandwidth / 2
  {
    var q := n / (2 * t);
    Floor(n, 2 * t);
    Regroup(q, t, bandwidth);
    if 2 * q > bandwidth { MulLe(bandwidth + 1, 2 * q, t); }
  }

  lemma Floor(n: nat, d: nat)
    requires d > 0
    ensures 0 <= n / d && n / d * d <= n
  {
    assert n == n / d * d + n % d;
  }

  lemma Regroup(q: int, t: int, bandwidth: int)
    ensures q * (2 * t) == (2 * q) * t && (bandwidth + 1) * t == t * bandwidth + t
  {
  }

  // The estimate with every saturation test of the source. It always lies
  // within half a bandwidth of the carrier and never overflows.
  method Estimate(weights: seq<nat>, carrier: u32, bandwidth: u32, detected: bool)
    returns (measured: u32, overflow: bool)
    requires Weights(weights) && ValidProfile(carrier, bandwidth)
    ensures !overflow && Abs(measured - carrier) <= bandwidth / 2
    ensures measured == if detected && TotalWeight(weights) != 0
                        then carrier + TruncDiv(Weighted(weights) * bandwidth, TotalWeight(weights) * 4)
                        else carrier
  {
    var total: nat := 0;
    var sum: i64 := 0;
    measured, overflow := carrier, false;
    TotalBound(weights);
    for inner := 0 to 5
      invariant total == TotalWeight(weights[..inner]) && sum == Weighted(weights[..inner]) * bandwidth
      invariant !overflow && measured == carrier
    {
      PartialSums(weights, inner, bandwidth);
      var term: i64 := weights[inner] * (inner - 2) * bandwidth;
      var (next, fits) := AddSaturating(sum, term);
      overflow := overflow || !fits;
      total, sum := total + weights[inner], next;
    }
    assert weights[..5] == weights;
    if detected && total != 0 {
      WeightedBound(weights);
      OffsetWithinHalf(Weighted(weights), total, bandwidth);
      var offset := TruncDiv(sum, total * 4);
      measured := carrier + offset;
    }
  }

  lemma PartialSums(weights: seq<nat>, k: nat, bandwidth: u32)
    requires Weights(weights) && k < 5 && bandwidth < PROFILE_LIMIT
    ensures TotalWeight(weights[..k + 1]) == TotalWeight(weights[..k]) + weights[k]
    ensures var term := weights[k] * (k - 2) * bandwidth;
            && Weighted(weights[..k + 1]) * bandwidth == Weighted(weights[..k]) * bandwidth + term
            && I64_MIN <= term <= I64_MAX
            && I64_MIN <= Weighted(weights[..k + 1]) * bandwidth <= I64_MAX
  {
    PartialWeights(weights, k);
    var before, term, after := Weighted(weights[..k]), weights[k] * (k - 2), Weighted(weights[..k + 1]);
    hide Weighted, TotalWeight;
    ProductBound(term, 6 * (B32 - 1), bandwidth);
    ProductBound(after, 30 * (B32 - 1), bandwidth);
    Distribute(before, term, bandwidth);
  }

  lemma Distribute(x: int, y: int, z: int)
    ensures (x + y) * z == x * z + y * z
  {
  }

  lemma PartialWeights(weights: seq<nat>, k: nat)
    requires Weights(weights) && k < 5
    ensures TotalWeight(weights[..k + 1]) == TotalWeight(weights[..k]) + weights[k]
    ensures Weighted(weights[..k + 1]) == Weighted(weights[..k]) + weights[k] * (k - 2)
    ensures Abs(weights[k] * (k - 2)) <= 6 * (B32 - 1) && Abs(Weighted(weights[..k + 1])) <= 30 * (B32 - 1)
  {
    assert weights[..k + 1][..k] == weights[..k];
    WeightedBound(weights[..k + 1]);
    TotalBound(weights[..k + 1]);
    OffsetBound(weights[k], k - 2);
  }

  // ---- The engine in place -------------------------------------------------------------

  datatype Sample = Sample(voltage: i32, malformed: bool, saturated: bool, valid: bool)

  // A completed window: the mean components, and where it lies.
  datatype Window = Window(inPhase: seq<int>, quadrature: seq<int>, analysed: nat, valid: bool,
    firstSample: u64, lastSample: u64, discontinuity: bool)

  // The voltages analysed out of a window's samples: every divisor-th one.
  ghost function Decimated(samples: seq<Sample>, divisor: nat): seq<i32>
    requires divisor > 0
  {
    if samples == [] then []
    else
      var k := |samples| - 1;
      Decimated(samples[..k], divisor) + if k % divisor == 0 then [samples[k].voltage] else []
  }

  ghost predicate AllValid(samples: seq<Sample>) {
    forall k :: 0 <= k < |samples| ==> samples[k].valid && !samples[k].malformed
  }

  predicate Rated(rate: u32, divisor: nat) {
    SupportedRate(rate) && divisor > 0 && divisor == rate / AnalysisRate(rate)
  }

  // How far a window's decimation has come after `span` samples.
  predicate Progress(rate: u32, divisor: nat, span: nat, decimation: nat, count: nat) {
    && Rated(rate, divisor)
    && decimation == span % divisor && count == (span + divisor - 1) / divisor
  }

  lemma ProgressStep(rate: u32, divisor: nat, span: nat, decimation: nat, count: nat)
    requires Progress(rate, divisor, span, decimation, count) && span < rate / 5
    ensures Progress(rate, divisor, span + 1, if decimation + 1 >= divisor then 0 else decimation + 1,
              count + if decimation == 0 then 1 else 0)
    ensures decimation == 0 ==> count < MAXIMUM_ANALYSED
  {
    CeilingStep(span, divisor);
    if decimation == 0 { BelowWindow(rate, divisor, span); }
  }

  lemma CeilingStep(span: nat, d: nat)
    requires d > 0
    ensures (span + 1) % d == if span % d + 1 >= d then 0 else span % d + 1
    ensures (span + d) / d == (span + d - 1) / d + if span % d == 0 then 1 else 0
    ensures span % d == 0 ==> (span + d - 1) / d * d == span
  {
    var q, r := span / d, span % d;
    assert span == q * d + r;
    Distribute(q, 1, d);
    DivUnique(span + d, d, q + 1);
    DivUnique(span + d - 1, d, if r == 0 then q else q + 1);
    ModUnique(span + 1, d, if r + 1 >= d then q + 1 else q, if r + 1 >= d then 0 else r + 1);
  }

  lemma BelowWindow(rate: u32, divisor: nat, span: nat)
    requires Rated(rate, divisor) && span < rate / 5
    requires (span + divisor - 1) / divisor * divisor == span
    ensures (span + divisor - 1) / divisor < MAXIMUM_ANALYSED
  {
    var count := (span + divisor - 1) / divisor;
    DivisorWindow(rate, divisor);
    if count >= MAXIMUM_ANALYSED { MulLe(MAXIMUM_ANALYSED, count, divisor); }
  }

  lemma DivisorWindow(rate: u32, divisor: nat)
    requires Rated(rate, divisor)
    ensures rate / 5 <= MAXIMUM_ANALYSED * divisor
  {
  }

  lemma ProgressDecimation(rate: u32, divisor: nat, span: nat, decimation: nat, count: nat)
    requires Progress(rate, divisor, span, decimation, count)
    ensures decimation == 0 <==> span % divisor == 0
  {
  }

  lemma NextIndex(first: u64, span: nat, last: u64)
    requires span > 0 && last == (first + span - 1) % B64
    ensures Add64(last, 1) == (first + span) % B64
  {
    ModAdd(first + span - 1, 1, B64);
  }

  lemma ProgressEnds(rate: u32, divisor: nat, decimation: nat, count: nat)
    requires Rated(rate, divisor) && Progress(rate, divisor, rate / 5, decimation, count)
    ensures decimation == 0 && count == AnalysisRate(rate) / 5 <= MAXIMUM_ANALYSED && 0 < count
    ensures Progress(rate, divisor, 0, 0, 0)
  {
  }

  lemma ProgressStarts(rate: u32)
    requires SupportedRate(rate)
    ensures rate / 5 >= 400 && Rated(rate, rate / AnalysisRate(rate))
    ensures Progress(rate, rate / AnalysisRate(rate), 0, 0, 0)
  {
  }

  lemma ProgressRated(rate: u32, divisor: nat, span: nat, decimation: nat, count: nat)
    requires Progress(rate, divisor, span, decimation, count)
    ensures Rated(rate, divisor) && divisor > 0 && rate / 5 >= 400
  {
  }

  // The samples before the first invalid one.
  ghost function Leading(samples: seq<Sample>): seq<Sample> {
    if AllValid(samples) then samples else Leading(samples[..|samples| - 1])
  }

  lemma LeadingAppend(samples: seq<Sample>, s: Sample)
    ensures Leading(samples + [s]) == if AllValid(samples + [s]) then samples + [s] else Leading(samples)
  {
    assert (samples + [s])[..|samples|] == samples;
    hide AllValid;
  }

  // Those are valid, and the next one, if any, is not.
  lemma {:induction false} LeadingIsLongest(samples: seq<Sample>)
    ensures var n := |Leading(samples)|;
            && n <= |samples| && Leading(samples) == samples[..n] && AllValid(samples[..n])
            && (n < |samples| ==> !samples[n].valid || samples[n].malformed)
  {
    var k := |samples| - 1;
    if AllValid(samples) {
      assert samples[..|samples|] == samples;
    } else {
      LeadingIsLongest(samples[..k]);
      var n := |Leading(samples)|;
      assert samples[..k][..n] == samples[..n];
      if n == k { assert samples[..k] == samples[..n]; }
    }
  }

  lemma DecimatedAppend(samples: seq<Sample>, s: Sample, divisor: nat)
    requires divisor > 0
    ensures Decimated(samples + [s], divisor)
         == Decimated(samples, divisor) + if |samples| % divisor == 0 then [s.voltage] else []
    ensures AllValid(samples + [s]) == (AllValid(samples) && s.valid && !s.malformed)
  {
    assert (samples + [s])[..|samples|] == samples;
    assert AllValid(samples + [s]) ==> AllValid(samples) by {
      if AllValid(samples + [s]) {
        forall k | 0 <= k < |samples| ensures samples[k].valid && !samples[k].malformed {
          assert (samples + [s])[k] == samples[k];
        }
      }
    }
    assert (samples + [s])[|samples|] == s;
  }

  class Engine {
    const table: seq<int>
    const realSum: array<i64>
    const imaginarySum: array<i64>
    const probePhase: array<u32>
    const probeStep: array<u32>
    var rate: u32
    var divisor: nat
    var observation: nat
    var span: nat
    var count: nat
    var decimation: nat
    var firstSample: u64
    var lastInput: u64
    var haveLast: bool
    var valid: bool
    var overflow: bool
    var pendingDiscontinuity: bool
    // The samples of the window in progress, those correlated before any was
    // invalid, and each oscillator's phase when the window began.
    ghost var samples: seq<Sample>
    ghost var window: seq<i32>
    ghost var start: seq<u32>

    ghost predicate Footprint()
      reads this`start
    {
      && QuarterTable(table) && |start| == PROBES
      && realSum.Length == imaginarySum.Length == probePhase.Length == probeStep.Length == PROBES
      && realSum != imaginarySum && probePhase != probeStep
    }

    // Each probe's sums are the correlations of the analysed voltages.
    ghost predicate Sums()
      reads this`start, this`window, realSum, imaginarySum, probeStep
      requires Footprint()
    {
      forall p :: 0 <= p < PROBES ==>
        && realSum[p] == InPhase(table, window, start[p], probeStep[p])
        && imaginarySum[p] == Quadrature(table, window, start[p], probeStep[p])
    }

    ghost predicate Phases()
      reads this`start, this`count, probePhase, probeStep
      requires Footprint()
    {
      forall p :: 0 <= p < PROBES ==> probePhase[p] == PhaseAt(start[p], probeStep[p], count)
    }

    // The counters of the window in progress, full at the latest.
    ghost predicate Counters()
      reads this`rate, this`divisor, this`observation, this`span, this`decimation, this`count,
            this`samples, this`window
    {
      && observation == rate / 5 && span <= observation && Progress(rate, divisor, span, decimation, count)
      && |samples| == span && |window| <= count
    }

    // The analysed voltages are the decimated samples before the first invalid
    // one.
    ghost predicate Heard()
      reads this`divisor, this`valid, this`samples, this`window, this`count
      requires divisor > 0
    {
      && valid == AllValid(samples) && window == Decimated(Leading(samples), divisor)
      && (valid ==> |window| == count)
    }

    // The samples of a window are consecutive.
    predicate Placed()
      reads this`span, this`haveLast, this`lastInput, this`firstSample
    {
      span > 0 ==> haveLast && lastInput == (firstSample + span - 1) % B64
    }

    ghost predicate Valid()
      reads this, realSum, imaginarySum, probePhase, probeStep
    {
      Footprint() && Counters() && span < observation && Heard() && Placed() && Sums() && Phases()
    }

    constructor (table: seq<int>)
      requires QuarterTable(table)
      ensures Footprint() && this.table == table && pendingDiscontinuity
      ensures fresh(realSum) && fresh(imaginarySum) && fresh(probePhase) && fresh(probeStep)
    {
      this.table := table;
      realSum, imaginarySum := new i64[PROBES](_ => 0), new i64[PROBES](_ => 0);
      probePhase, probeStep := new u32[PROBES](_ => 0), new u32[PROBES](_ => 0);
      rate, divisor, observation := 0, 1, 0;
      span, count, decimation, firstSample, lastInput := 0, 0, 0, 0, 0;
      haveLast, valid, overflow, pendingDiscontinuity := false, false, false, true;
      samples, window, start := [], [], [0, 0, 0, 0, 0, 0, 0];
    }

    // An empty window whose oscillators continue from where they are.
    method ClearWindow()
      requires Footprint()
      modifies this`span, this`count, this`valid, this`overflow, this`samples, this`window, this`start,
               realSum, imaginarySum
      ensures Footprint() && span == count == 0 && valid && !overflow
      ensures samples == [] && window == [] && start == probePhase[..] && Sums()
    {
      hide QuarterTable;
      forall p | 0 <= p < PROBES { realSum[p] := 0; }
      forall p | 0 <= p < PROBES { imaginarySum[p] := 0; }
      span, count, valid, overflow, samples, window := 0, 0, true, false, [], [];
      start := probePhase[..];
    }

    // Oscillators that stand where a new window starts.
    lemma Restarted()
      requires Footprint() && count == 0 && start == probePhase[..]
      ensures Phases()
    {
      hide QuarterTable, PhaseAt;
      forall p | 0 <= p < PROBES ensures probePhase[p] == PhaseAt(start[p], probeStep[p], 0) {
        PhaseNext(start[p], probeStep[p], 0);
      }
    }

    method ResetSignalPath(contaminated: bool)
      requires Footprint() && Rated(rate, divisor) && observation == rate / 5
      modifies this`span, this`count, this`valid, this`overflow, this`samples, this`window, this`start,
               this`decimation, this`haveLast, this`pendingDiscontinuity, realSum, imaginarySum, probePhase
      ensures Valid() && span == 0 && !haveLast && valid && !overflow
      ensures pendingDiscontinuity == (old(pendingDiscontinuity) || contaminated)
    {
      hide QuarterTable, PhaseAt;
      forall p | 0 <= p < PROBES { probePhase[p] := 0; }
      ClearWindow();
      decimation, haveLast := 0, false;
      if contaminated {
        pendingDiscontinuity := true;
      }
      ProgressStarts(rate);
      Restarted();
    }

    // Each probe's step for a profile at an analysis rate.
    method LoadSteps(carrier: u32, bandwidth: u32, analysisRate: u32)
      requires Footprint()
      modifies probeStep
      ensures forall p :: 0 <= p < PROBES ==>
        probeStep[p] == PhaseStep(carrier, bandwidth, [-4, -2, -1, 0, 1, 2, 4][p], analysisRate)
    {
      hide PhaseStep, QuarterTable;
      var offsets := [-4, -2, -1, 0, 1, 2, 4];
      for p := 0 to PROBES
        invariant forall k :: 0 <= k < p ==> probeStep[k] == PhaseStep(carrier, bandwidth, offsets[k], analysisRate)
      {
        probeStep[p] := PhaseStep(carrier, bandwidth, offsets[p], analysisRate);
      }
    }

    // A new profile or sample rate; unusable ones are refused unchanged.
    method Configure(carrier: u32, bandwidth: u32, sampleRate: u32) returns (accepted: bool)
      requires Footprint()
      modifies this, realSum, imaginarySum, probePhase, probeStep
      ensures accepted <==> SupportedRate(sampleRate) && ValidProfile(carrier, bandwidth) &&
                            carrier + bandwidth < sampleRate * 500
      ensures accepted ==> Valid() && rate == sampleRate && span == 0 && pendingDiscontinuity
      ensures accepted ==> forall p :: 0 <= p < PROBES ==>
        probeStep[p] == PhaseStep(carrier, bandwidth, [-4, -2, -1, 0, 1, 2, 4][p], AnalysisRate(sampleRate))
      ensures !accepted ==> unchanged(this, realSum, imaginarySum, probePhase, probeStep)
    {
      hide QuarterTable, PhaseStep;
      if !SupportedRate(sampleRate) || !ValidProfile(carrier, bandwidth) ||
         carrier + bandwidth >= sampleRate * 500 {
        return false;
      }
      ProgressStarts(sampleRate);
      rate, divisor, observation := sampleRate, sampleRate / AnalysisRate(sampleRate), sampleRate / 5;
      LoadSteps(carrier, bandwidth, AnalysisRate(sampleRate));
      ResetSignalPath(true);
      accepted := true;
    }

    // Correlate one voltage with one probe and advance its oscillator. The
    // sums are 64-bit: each addition is shown to fit.
    method Correlate(voltage: i32, p: nat)
      requires Footprint() && p < PROBES && probePhase[p] == PhaseAt(start[p], probeStep[p], count)
      requires realSum[p] == InPhase(table, window, start[p], probeStep[p])
      requires imaginarySum[p] == Quadrature(table, window, start[p], probeStep[p])
      requires valid ==> |window| == count < MAXIMUM_ANALYSED
      modifies realSum, imaginarySum, probePhase
      ensures forall k :: 0 <= k < PROBES && k != p ==>
        realSum[k] == old(realSum[k]) && imaginarySum[k] == old(imaginarySum[k]) && probePhase[k] == old(probePhase[k])
      ensures probePhase[p] == PhaseAt(start[p], probeStep[p], count + 1)
      ensures realSum[p] == InPhase(table, Extended(voltage), start[p], probeStep[p])
      ensures imaginarySum[p] == Quadrature(table, Extended(voltage), start[p], probeStep[p])
    {
      hide CosineQ17, SineQ17, QuarterTable, InPhase, Quadrature, PhaseAt, Add32;
      ghost var from, step := start[p], probeStep[p];
      CorrelationAppend(table, window, voltage, from, step);
      PhaseNext(from, step, count);
      if valid {
        WindowFits(table, window + [voltage], from, step);
        realSum[p] := realSum[p] + voltage * CosineQ17(table, probePhase[p]);
        imaginarySum[p] := imaginarySum[p] - voltage * SineQ17(table, probePhase[p]);
      }
      probePhase[p] := Add32(probePhase[p], probeStep[p]);
    }

    // An invalid window keeps its sums as they were.
    ghost function Extended(voltage: i32): seq<i32>
      reads this`valid, this`window
    {
      if valid then window + [voltage] else window
    }

    method Analyse(voltage: i32)
      requires Footprint() && Sums() && Phases()
      requires valid ==> |window| == count < MAXIMUM_ANALYSED
      modifies realSum, imaginarySum, probePhase, this`window, this`count
      ensures Sums() && Phases() && window == old(Extended(voltage)) && count == old(count) + 1
    {
      hide QuarterTable, InPhase, Quadrature, PhaseAt, Extended;
      ghost var after := Extended(voltage);
      for p := 0 to PROBES
        modifies realSum, imaginarySum, probePhase
        invariant forall k :: p <= k < PROBES ==> probePhase[k] == PhaseAt(start[k], probeStep[k], count)
        invariant forall k :: p <= k < PROBES ==>
          && realSum[k] == InPhase(table, window, start[k], probeStep[k])
          && imaginarySum[k] == Quadrature(table, window, start[k], probeStep[k])
        invariant forall k :: 0 <= k < p ==> probePhase[k] == PhaseAt(start[k], probeStep[k], count + 1)
        invariant forall k :: 0 <= k < p ==>
          && realSum[k] == InPhase(table, after, start[k], probeStep[k])
          && imaginarySum[k] == Quadrature(table, after, start[k], probeStep[k])
      {
        Correlate(voltage, p);
      }
      window, count := after, count + 1;
    }

    // Every divisor-th sample is analysed.
    method Decimate(voltage: i32)
      requires Footprint() && Sums() && Phases() && divisor > 0
      requires decimation == 0 && valid ==> |window| == count < MAXIMUM_ANALYSED
      modifies this`decimation, realSum, imaginarySum, probePhase, this`window, this`count
      ensures Sums() && Phases()
      ensures decimation == if old(decimation) + 1 >= divisor then 0 else old(decimation) + 1
      ensures window == if old(decimation) == 0 then old(Extended(voltage)) else old(window)
      ensures count == old(count) + if old(decimation) == 0 then 1 else 0
    {
      hide QuarterTable, Sums, Phases, Extended;
      var analyse := decimation == 0;
      decimation := if decimation + 1 >= divisor then 0 else decimation + 1;
      if analyse {
        Analyse(voltage);
      }
    }

    method Note(s: Sample, index: u64)
      requires span > 0 ==> index == (firstSample + span) % B64
      modifies this`span, this`firstSample, this`valid, this`overflow, this`samples
      ensures span == old(span) + 1 && samples == old(samples) + [s]
      ensures valid == (old(valid) && s.valid) && overflow == (old(overflow) || s.saturated)
      ensures index == (firstSample + span - 1) % B64
    {
      overflow := overflow || s.saturated;
      if span == 0 {
        firstSample := index;
      }
      valid := valid && s.valid;
      span, samples := span + 1, samples + [s];
    }

    // Takes one well-formed sample into the window.
    method Accept(s: Sample, index: u64)
      requires Footprint() && Counters() && span < observation && Heard() && Sums() && Phases() && !s.malformed
      requires span > 0 ==> index == (firstSample + span) % B64
      modifies this`span, this`count, this`decimation, this`firstSample, this`valid, this`overflow,
               this`samples, this`window, realSum, imaginarySum, probePhase
      ensures Footprint() && Counters() && Heard() && Sums() && Phases()
      ensures span == old(span) + 1 && samples == old(samples) + [s]
      ensures index == (firstSample + span - 1) % B64
      ensures overflow == (old(overflow) || s.saturated)
    {
      hide QuarterTable, Decimated, AllValid, Progress, Rated, Sums, Phases, Footprint;
      ProgressRated(rate, divisor, span, decimation, count);
      DecimatedAppend(samples, s, divisor);
      LeadingAppend(samples, s);
      ProgressStep(rate, divisor, span, decimation, count);
      ProgressDecimation(rate, divisor, span, decimation, count);
      Note(s, index);
      Decimate(s.voltage);
    }

    method TakeMeans() returns (inPhase: seq<int>, quadrature: seq<int>)
      requires Footprint() && Sums() && |window| <= count <= MAXIMUM_ANALYSED && count > 0
      ensures |inPhase| == |quadrature| == PROBES
      ensures forall p :: 0 <= p < PROBES ==>
        && IsMean(inPhase[p], InPhase(table, window, start[p], probeStep[p]), count)
        && IsMean(quadrature[p], Quadrature(table, window, start[p], probeStep[p]), count)
    {
      hide QuarterTable, InPhase, Quadrature, IsMean, MeanComponent;
      inPhase, quadrature := [], [];
      for p := 0 to PROBES
        invariant |inPhase| == |quadrature| == p
        invariant forall k :: 0 <= k < p ==>
          && IsMean(inPhase[k], InPhase(table, window, start[k], probeStep[k]), count)
          && IsMean(quadrature[k], Quadrature(table, window, start[k], probeStep[k]), count)
      {
        MeansOf(table, window, start[p], probeStep[p], count);
        inPhase := inPhase + [MeanComponent(realSum[p], count)];
        quadrature := quadrature + [MeanComponent(imaginarySum[p], count)];
      }
    }

    // What a completed window reports about the samples it covers.
    ghost predicate Reports(w: Window, covered: seq<Sample>, from: seq<u32>)
      reads this`rate, this`divisor, probeStep
      requires divisor > 0 && QuarterTable(table) && probeStep.Length == PROBES == |from|
    {
      && |covered| == rate / 5 && w.analysed == AnalysisRate(rate) / 5
      && w.valid == AllValid(covered)
      && w.lastSample == (w.firstSample + |covered| - 1) % B64
      && |w.inPhase| == |w.quadrature| == PROBES
      && forall p :: 0 <= p < PROBES ==> ReportsProbe(w, covered, from, p)
    }

    ghost predicate ReportsProbe(w: Window, covered: seq<Sample>, from: seq<u32>, p: nat)
      reads this`divisor, probeStep
      requires divisor > 0 && QuarterTable(table) && probeStep.Length == PROBES == |from|
      requires |w.inPhase| == |w.quadrature| == PROBES && p < PROBES
    {
      && -0x8000_0000 <= w.inPhase[p] <= 0x8000_0000 && -0x8000_0000 <= w.quadrature[p] <= 0x8000_0000
      && var heard := Decimated(Leading(covered), divisor);
      && |heard| <= w.analysed && (w.valid ==> |heard| == w.analysed)
      && IsMean(w.inPhase[p], InPhase(table, heard, from[p], probeStep[p]), w.analysed)
      && IsMean(w.quadrature[p], Quadrature(table, heard, from[p], probeStep[p]), w.analysed)
    }

    method CompleteWindow() returns (w: Window)
      requires Footprint() && Counters() && span == observation && Heard() && Sums() && Phases() && Placed() && haveLast
      modifies this`span, this`count, this`valid, this`overflow, this`samples, this`window, this`start,
               this`pendingDiscontinuity, realSum, imaginarySum
      ensures Valid() && span == 0 && !pendingDiscontinuity
      ensures Reports(w, old(samples), old(start))
      ensures w.lastSample == lastInput && w.discontinuity == old(pendingDiscontinuity)
    {
      hide QuarterTable, InPhase, Quadrature, PhaseAt, Progress, Rated;
      ProgressRated(rate, divisor, span, decimation, count);
      ProgressEnds(rate, divisor, decimation, count);
      var inPhase, quadrature := TakeMeans();
      w := Window(inPhase, quadrature, count, valid, firstSample, lastInput, pendingDiscontinuity);
      pendingDiscontinuity := false;
      ClearWindow();
      Restarted();
    }

    // A break in the sample numbering starts the window again.
    method Arrive(index: u64)
      requires Valid()
      modifies this`span, this`count, this`valid, this`overflow, this`samples, this`window, this`start,
               this`decimation, this`haveLast, this`lastInput, this`pendingDiscontinuity,
               realSum, imaginarySum, probePhase
      ensures Footprint() && Counters() && span < observation && Heard() && Sums() && Phases()
      ensures haveLast && lastInput == index && (span > 0 ==> index == (firstSample + span) % B64)
      ensures if old(haveLast) && index != Add64(old(lastInput), 1)
              then samples == [] && span == 0 && pendingDiscontinuity
              else samples == old(samples) && span == old(span) && start == old(start) &&
                   pendingDiscontinuity == old(pendingDiscontinuity)
    {
      hide QuarterTable, Progress, Rated, Sums, Phases, Footprint, Heard, Add64;
      ProgressRated(rate, divisor, span, decimation, count);
      if span > 0 { NextIndex(firstSample, span, lastInput); }
      if haveLast && index != Add64(lastInput, 1) {
        ResetSignalPath(true);
      }
      lastInput, haveLast := index, true;
    }

    method ProcessSample(s: Sample, index: u64) returns (completed: Option<Window>)
      requires Valid()
      modifies this, realSum, imaginarySum, probePhase
      ensures Valid() && rate == old(rate) && divisor == old(divisor) && haveLast && lastInput == index
      ensures !s.malformed && (!old(haveLast) || index == Add64(old(lastInput), 1)) ==>
        if old(span) + 1 == rate / 5
        then completed.Some? && Reports(completed.value, old(samples) + [s], old(start)) &&
             completed.value.discontinuity == old(pendingDiscontinuity) && !pendingDiscontinuity && samples == []
        else completed.None? && samples == old(samples) + [s] && pendingDiscontinuity == old(pendingDiscontinuity)
      ensures s.malformed ==> completed.None? && samples == [] && pendingDiscontinuity
      ensures !s.malformed && old(haveLast) && index != Add64(old(lastInput), 1) ==>
        completed.None? && samples == [s] && firstSample == index && pendingDiscontinuity
    {
      hide QuarterTable, Decimated, AllValid, Progress, Rated, Sums, Phases, Reports;
      completed := None;
      Arrive(index);
      ProgressRated(rate, divisor, span, decimation, count);
      if s.malformed {
        ResetSignalPath(true);
        lastInput, haveLast := index, true;
        return;
      }
      Accept(s, index);
      if span >= observation {
        var w := CompleteWindow();
        completed := Some(w);
      }
    }
  }
}
