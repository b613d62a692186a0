/** The flickermeter's logarithmic histogram and its percentiles, against the
    definition by sorting. */
module FlickerClassifier {
  import opened Words
  import opened WideArithmetic

  const BINS: nat := 512
  const LOWEST: int := 0x100
  const HIGHEST: int := 0x100_0000

  // ---- Bins: 32 equal steps in each octave --------------------------------------

  // The position of the highest set bit.
  function TopBit(x: nat): nat { if x < 2 then 0 else 1 + TopBit(x / 2) }

  lemma {:induction false} TopBitBounds(x: nat)
    requires x > 0
    ensures Pow2(TopBit(x)) <= x < 2 * Pow2(TopBit(x))
  {
    if x >= 2 { TopBitBounds(x / 2); }
  }

  lemma Pow2Grows(a: nat, b: nat)
    requires a <= b
    ensures Pow2(a) <= Pow2(b)
  {
    Pow2Sum(a, b - a);
    Pow2Positive(b - a); Pow2Positive(a);
    MulLe(1, Pow2(b - a), Pow2(a));
  }

  lemma Pow2Small()
    ensures Pow2(3) == 8 && Pow2(8) == 256 && Pow2(5) == 32 && Pow2(24) == HIGHEST
  {
    assert Pow2(8) == 256;
    Pow2Sum(8, 8);
    Pow2Sum(16, 8);
  }

  lemma TopBitInRange(x: nat)
    requires LOWEST <= x < HIGHEST
    ensures 8 <= TopBit(x) <= 23
  {
    Pow2Small();
    TopBitBounds(x);
    if TopBit(x) < 8 { Pow2Grows(TopBit(x) + 1, 8); }
    if TopBit(x) > 23 { Pow2Grows(24, TopBit(x)); }
  }

  // Five fraction bits below the top bit.
  function BinOf(x: u32): (bin: nat)
    ensures bin < BINS
  {
    if x < LOWEST then 0
    else if x >= HIGHEST then BINS - 1
    else
      TopBitInRange(x);
      Pow2Positive(TopBit(x) - 5);
      (TopBit(x) - 8) * 32 + x / Pow2(TopBit(x) - 5) % 32
  }

  predicate Outside(x: u32) { x < LOWEST || x >= HIGHEST }

  function Width(bin: nat): nat { Pow2(bin / 32 + 3) }

  function Low(bin: nat): nat { Pow2(bin / 32 + 8) + bin % 32 * Width(bin) }

  function Midpoint(bin: nat): nat { Low(bin) + Width(bin) / 2 }

  lemma Edges(octave: nat)
    ensures Pow2(octave + 8) == 32 * Pow2(octave + 3) && Pow2(octave + 3) >= 8
  {
    Pow2Small();
    Pow2Sum(octave + 3, 5);
    Pow2Sum(octave, 3);
    Pow2Positive(octave);
  }

  lemma EdgesOf(octave: nat, fraction: nat)
    requires fraction < 32
    ensures Width(octave * 32 + fraction) == Pow2(octave + 3)
    ensures Low(octave * 32 + fraction) == 32 * Pow2(octave + 3) + fraction * Pow2(octave + 3)
  {
    Divided32(octave, fraction);
    Edges(octave);
    hide Pow2;
  }

  lemma WidthOf(bin: nat)
    ensures 32 * Width(bin) <= Low(bin) && Width(bin) % 2 == 0
  {
    var octave := bin / 32;
    Edges(octave);
    assert Width(bin) == 2 * Pow2(octave + 2);
    AtLeastBase(32 * Width(bin), bin % 32, Width(bin));
    assert Low(bin) == 32 * Width(bin) + bin % 32 * Width(bin);
  }

  lemma AtLeastBase(base: nat, k: nat, w: nat)
    ensures base <= base + k * w
  {
  }

  // A bin covers exactly the values between its edges.
  lemma BinHolds(x: u32)
    requires !Outside(x)
    ensures Low(BinOf(x)) <= x < Low(BinOf(x)) + Width(BinOf(x))
  {
    TopBitInRange(x);
    TopBitBounds(x);
    var octave := TopBit(x) - 8;
    var w := Pow2(octave + 3);
    Edges(octave);
    var q := x / w;
    QuotientInOctave(x, w, q);
    assert BinOf(x) == octave * 32 + (q - 32);
    EdgesOf(octave, q - 32);
    hide Low, Width, Pow2, BinOf, TopBit;
    Between(x, w, q);
  }

  lemma Between(x: nat, w: nat, q: nat)
    requires w > 0 && q == x / w && q >= 32
    ensures 32 * w + (q - 32) * w <= x < 32 * w + (q - 32) * w + w
  {
    assert x == q * w + x % w;
    assert q * w == 32 * w + (q - 32) * w;
  }

  lemma QuotientInOctave(x: nat, w: nat, q: nat)
    requires w > 0 && q == x / w && 32 * w <= x < 64 * w
    ensures 32 <= q < 64 && q % 32 == q - 32
  {
    DivUniqueBetween(x, w, q);
  }

  lemma DivUniqueBetween(x: nat, w: nat, q: nat)
    requires w > 0 && q == x / w && 32 * w <= x < 64 * w
    ensures 32 <= q < 64
  {
    assert x == q * w + x % w;
    if q < 32 { MulLe(q + 1, 32, w); }
    if q >= 64 { MulLe(64, q, w); }
  }

  lemma Divided32(octave: nat, fraction: nat)
    requires fraction < 32
    ensures (octave * 32 + fraction) / 32 == octave && (octave * 32 + fraction) % 32 == fraction
  {
  }

  // Consecutive bins meet, so the bins tile the classified range.
  lemma BinsMeet(bin: nat)
    ensures Low(bin + 1) == Low(bin) + Width(bin)
  {
    Edges(bin / 32);
    if bin % 32 == 31 {
      assert (bin + 1) / 32 == bin / 32 + 1 && (bin + 1) % 32 == 0;
      assert Pow2(bin / 32 + 9) == 2 * Pow2(bin / 32 + 8);
    } else {
      assert (bin + 1) / 32 == bin / 32 && (bin + 1) % 32 == bin % 32 + 1;
      Stretch(bin % 32, Width(bin));
    }
  }

  lemma Stretch(k: nat, w: nat)
    ensures (k + 1) * w == k * w + w
  {
  }

  lemma {:induction false} LowGrows(a: nat, b: nat)
    requires a <= b
    ensures Low(a) <= Low(b)
    decreases b - a
  {
    if a < b {
      BinsMeet(a);
      LowGrows(a + 1, b);
    }
  }

  // The edges of the classified range.
  lemma Range()
    ensures Low(0) == LOWEST && Low(BINS) == HIGHEST
  {
    Pow2Small();
  }

  // A larger value never falls in a lower bin.
  lemma BinMonotone(x: u32, y: u32)
    requires x <= y
    ensures BinOf(x) <= BinOf(y)
  {
    if !Outside(x) && !Outside(y) && BinOf(x) > BinOf(y) {
      BinHolds(x); BinHolds(y);
      BinsMeet(BinOf(y));
      LowGrows(BinOf(y) + 1, BinOf(x));
      hide *;
      assert false;
    }
  }

  // A midpoint is within a sixty-fourth of every value its bin holds.
  lemma MidpointIsClose(x: u32)
    requires !Outside(x)
    ensures 64 * Abs(Midpoint(BinOf(x)) - x) <= x
  {
    BinHolds(x);
    WidthOf(BinOf(x));
    hide Low, Width, BinOf;
    CloseEnough(Low(BinOf(x)), Width(BinOf(x)), x);
  }

  lemma CloseEnough(low: nat, width: nat, x: nat)
    requires low <= x < low + width && 32 * width <= low && width % 2 == 0
    ensures 64 * Abs(low + width / 2 - x) <= x
  {
  }

  // ---- Histograms ------------------------------------------------------------------

  ghost function Histogram(samples: seq<u32>): (h: seq<nat>)
    ensures |h| == BINS
  {
    if samples == [] then seq(BINS, _ => 0)
    else
      var before := Histogram(samples[..|samples| - 1]);
      var bin := BinOf(samples[|samples| - 1]);
      before[bin := before[bin] + 1]
  }

  // How many lie in `bin` or above.
  ghost function Tail(h: seq<nat>, bin: nat): nat
    requires bin <= |h|
    decreases |h| - bin
  {
    if bin == |h| then 0 else h[bin] + Tail(h, bin + 1)
  }

  ghost function AtLeast(samples: seq<u32>, bin: nat): nat {
    if samples == [] then 0
    else AtLeast(samples[..|samples| - 1], bin) + if BinOf(samples[|samples| - 1]) >= bin then 1 else 0
  }

  lemma {:induction false} TailUpdate(h: seq<nat>, at: nat, bin: nat)
    requires at < |h| && bin <= |h|
    ensures Tail(h[at := h[at] + 1], bin) == Tail(h, bin) + if at >= bin then 1 else 0
    decreases |h| - bin
  {
    if bin < |h| { TailUpdate(h, at, bin + 1); }
  }

  lemma {:induction false} TailEmpty(bin: nat)
    requires bin <= BINS
    ensures Tail(seq(BINS, _ => 0), bin) == 0
    decreases BINS - bin
  {
    if bin < BINS { TailEmpty(bin + 1); }
  }

  // Counting down the histogram counts the samples.
  lemma {:induction false} TailCounts(samples: seq<u32>, bin: nat)
    requires bin <= BINS
    ensures Tail(Histogram(samples), bin) == AtLeast(samples, bin)
  {
    if samples == [] {
      TailEmpty(bin);
    } else {
      var n := |samples| - 1;
      TailCounts(samples[..n], bin);
      TailUpdate(Histogram(samples[..n]), BinOf(samples[n]), bin);
    }
  }

  lemma {:induction false} AllAtLeastZero(samples: seq<u32>)
    ensures AtLeast(samples, 0) == |samples|
  {
    if samples != [] { AllAtLeastZero(samples[..|samples| - 1]); }
  }

  lemma {:induction false} NoneAboveTop(samples: seq<u32>)
    ensures AtLeast(samples, BINS) == 0
  {
    if samples != [] { NoneAboveTop(samples[..|samples| - 1]); }
  }

  lemma {:induction false} AtLeastConcat(s: seq<u32>, t: seq<u32>, bin: nat)
    ensures AtLeast(s + t, bin) == AtLeast(s, bin) + AtLeast(t, bin)
  {
    if t == [] {
      assert s + t == s;
    } else {
      AtLeastConcat(s, t[..|t| - 1], bin);
      assert (s + t)[..|s + t| - 1] == s + t[..|t| - 1];
    }
  }

  lemma Removed(s: seq<u32>, j: nat)
    requires j < |s|
    ensures multiset(s[..j] + s[j + 1..]) == multiset(s) - multiset{s[j]}
  {
    assert s == s[..j] + [s[j]] + s[j + 1..];
  }

  lemma AtLeastRemoved(t: seq<u32>, j: nat, bin: nat)
    requires j < |t|
    ensures AtLeast(t, bin) == AtLeast(t[..j] + t[j + 1..], bin) + if BinOf(t[j]) >= bin then 1 else 0
  {
    hide BinOf;
    assert t == (t[..j] + [t[j]]) + t[j + 1..];
    AtLeastConcat(t[..j] + [t[j]], t[j + 1..], bin);
    AtLeastConcat(t[..j], t[j + 1..], bin);
    assert (t[..j] + [t[j]])[..j] == t[..j];
  }

  lemma FindLast(s: seq<u32>, t: seq<u32>) returns (j: nat)
    requires s != [] && multiset(s) == multiset(t)
    ensures j < |t| && t[j] == s[|s| - 1]
    ensures multiset(s[..|s| - 1]) == multiset(t[..j] + t[j + 1..])
  {
    var n := |s| - 1;
    assert s[n] in multiset(s);
    j :| 0 <= j < |t| && t[j] == s[n];
    Removed(s, n); Removed(t, j);
    assert s[..n] + s[n + 1..] == s[..n];
  }

  // The counts do not depend on the order of the samples.
  lemma {:induction false} AtLeastPermuted(s: seq<u32>, t: seq<u32>, bin: nat)
    requires multiset(s) == multiset(t)
    ensures AtLeast(s, bin) == AtLeast(t, bin)
    decreases |s|
  {
    hide BinOf;
    if s == [] {
      assert |t| == |multiset(t)| == 0;
    } else {
      var j := FindLast(s, t);
      AtLeastPermuted(s[..|s| - 1], t[..j] + t[j + 1..], bin);
      AtLeastRemoved(t, j, bin);
    }
  }

  // ---- Percentiles ---------------------------------------------------------------------

  ghost predicate Descending(s: seq<u32>) {
    forall i, j :: 0 <= i < j < |s| ==> s[i] >= s[j]
  }

  // In a descending list the samples at or above a bin come first.
  lemma {:induction false} DescendingCount(s: seq<u32>, bin: nat, i: nat)
    requires Descending(s) && i < |s|
    ensures i < AtLeast(s, bin) <==> BinOf(s[i]) >= bin
  {
    var n := |s| - 1;
    AtMostAll(s[..n], bin);
    if i < n {
      DescendingCount(s[..n], bin, i);
      if BinOf(s[i]) < bin { BinMonotone(s[n], s[i]); }
    } else if n > 0 {
      DescendingCount(s[..n], bin, n - 1);
      BinMonotone(s[n], s[n - 1]);
    }
  }

  lemma {:induction false} AtMostAll(s: seq<u32>, bin: nat)
    ensures AtLeast(s, bin) <= |s|
  {
    if s != [] { AtMostAll(s[..|s| - 1], bin); }
  }

  // The highest bin at which the count from the top reaches `k`.
  ghost function RankBin(h: seq<nat>, k: nat, reverse: nat): Option<nat>
    requires reverse <= |h|
  {
    if reverse == 0 then None
    else if Tail(h, reverse - 1) >= k then Some(reverse - 1)
    else RankBin(h, k, reverse - 1)
  }

  lemma {:induction false} RankBinHolds(h: seq<nat>, k: nat, reverse: nat)
    requires reverse <= |h| && Tail(h, reverse) < k <= Tail(h, 0)
    ensures var r := RankBin(h, k, reverse);
            r.Some? && r.value < reverse && Tail(h, r.value + 1) < k <= Tail(h, r.value)
  {
    if reverse > 0 && Tail(h, reverse - 1) < k { RankBinHolds(h, k, reverse - 1); }
  }

  lemma {:induction false} TailShrinks(h: seq<nat>, a: nat, b: nat)
    requires a <= b <= |h|
    ensures Tail(h, b) <= Tail(h, a)
    decreases b - a
  {
    if a < b { TailShrinks(h, a + 1, b); }
  }

  function Target(total: nat, tenths: nat): nat { (total * tenths + 999) / 1000 }

  lemma TargetRank(total: nat, tenths: nat)
    requires 0 < total && 0 < tenths <= 1000
    ensures 1 <= Target(total, tenths) <= total
  {
    MulLe(tenths, 1000, total);
    MulLe(1, total, tenths);
  }

  ghost function PercentileOf(h: seq<nat>, total: nat, tenths: nat): nat
    requires |h| == BINS
  {
    if total == 0 then 0
    else
      var r := RankBin(h, Target(total, tenths), BINS);
      if r.None? then LOWEST else Midpoint(r.value)
  }

  // The percentile of any samples is the midpoint of the bin of their k-th
  // largest, in whatever order they came.
  lemma PercentileAgreesWithSorting(samples: seq<u32>, sorted: seq<u32>, tenths: nat)
    requires samples != [] && multiset(samples) == multiset(sorted) && Descending(sorted)
    requires 0 < tenths <= 1000
    ensures |samples| == |sorted|
    ensures var k := Target(|samples|, tenths);
            && 1 <= k <= |sorted|
            && PercentileOf(Histogram(samples), |samples|, tenths) == Midpoint(BinOf(sorted[k - 1]))
  {
    assert |samples| == |multiset(samples)| && |sorted| == |multiset(sorted)|;
    TargetRank(|samples|, tenths);
    var k := Target(|samples|, tenths);
    var h := Histogram(samples);
    hide Target, Histogram, AtLeast, BinOf, Low, Width;
    AllAtLeastZero(samples); NoneAboveTop(samples);
    TailCounts(samples, 0); TailCounts(samples, BINS);
    RankBinHolds(h, k, BINS);
    var bin := RankBin(h, k, BINS).value;
    TailCounts(samples, bin); TailCounts(samples, bin + 1);
    AtLeastPermuted(samples, sorted, bin); AtLeastPermuted(samples, sorted, bin + 1);
    DescendingCount(sorted, bin, k - 1);
    DescendingCount(sorted, bin + 1, k - 1);
  }

  // So it is within a sixty-fourth of that sample when none lies outside.
  lemma PercentileIsClose(samples: seq<u32>, sorted: seq<u32>, tenths: nat)
    requires samples != [] && multiset(samples) == multiset(sorted) && Descending(sorted)
    requires 0 < tenths <= 1000 && forall i :: 0 <= i < |sorted| ==> !Outside(sorted[i])
    ensures |samples| == |sorted|
    ensures var k := Target(|samples|, tenths);
            && 1 <= k <= |sorted|
            && 64 * Abs(PercentileOf(Histogram(samples), |samples|, tenths) - sorted[k - 1]) <= sorted[k - 1]
  {
    PercentileAgreesWithSorting(samples, sorted, tenths);
    MidpointIsClose(sorted[Target(|samples|, tenths) - 1]);
  }

  // A level exceeded for longer is not higher.
  lemma PercentileNonIncreasing(h: seq<nat>, total: nat, shorter: nat, longer: nat)
    requires |h| == BINS && Tail(h, 0) == total && shorter <= longer <= 1000 && 0 < shorter
    ensures PercentileOf(h, total, longer) <= PercentileOf(h, total, shorter)
  {
    if total > 0 {
      TargetRank(total, shorter); TargetRank(total, longer);
      MulLe(shorter, longer, total);
      var a, b := Target(total, shorter), Target(total, longer);
      assert a <= b;
      RankBinHolds(h, a, BINS); RankBinHolds(h, b, BINS);
      var p, q := RankBin(h, a, BINS).value, RankBin(h, b, BINS).value;
      if q > p { TailShrinks(h, p + 1, q); }
      MidpointMonotone(q, p);
    }
  }

  lemma MidpointMonotone(a: nat, b: nat)
    requires a <= b
    ensures Midpoint(a) <= Midpoint(b)
  {
    if a < b {
      BinsMeet(a);
      LowGrows(a + 1, b);
    }
  }

  // The search from the top bin down.
  method Percentile(histogram: seq<u32>, total: u32, tenths: u32) returns (level: u32)
    requires |histogram| == BINS
    ensures level == PercentileOf(histogram, total, tenths)
  {
    if total == 0 {
      return 0;
    }
    var target := (total * tenths + 999) / 1000;
    var accumulated: u64 := 0;
    for reverse := BINS downto 0
      invariant accumulated == Tail(histogram, reverse) <= (BINS - reverse) * B32
      invariant RankBin(histogram, target, BINS) == RankBin(histogram, target, reverse)
    {
      accumulated := accumulated + histogram[reverse];
      if accumulated >= target {
        MidpointFits(reverse);
        return Midpoint(reverse);
      }
    }
    return LOWEST;
  }

  lemma MidpointFits(bin: nat)
    requires bin < BINS
    ensures LOWEST <= Midpoint(bin) < HIGHEST
  {
    Range();
    Edges(bin / 32);
    BinsMeet(bin);
    LowGrows(0, bin); LowGrows(bin + 1, BINS);
  }
}
