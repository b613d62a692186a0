/** Sliding demand: a circular buffer of 3-second intervals, their weighted
    mean, and the peaks kept over it. One power lane stands for the phases. */
module SlidingDemand {
  import opened Words

  const BUCKET_SECONDS: nat := 3
  const MAXIMUM_BUCKETS: nat := 600
  const MICRO: nat := 1_000_000

  datatype Bucket = Bucket(power: i64, samples: u32, firstSample: u64, lastSample: u64, generation: u32, rate: u32)

  // The windows a configuration may ask for, in seconds.
  predicate ValidWindow(seconds: nat) {
    seconds == 60 || seconds == 300 || seconds == 600 || seconds == 900 || seconds == 1800
  }

  function Target(seconds: nat): nat { seconds / BUCKET_SECONDS }

  // The position of the `k`-th oldest bucket.
  function Index(head: nat, k: nat, target: nat): nat
    requires target > 0
  {
    (head + k) % target
  }

  predicate Continues(newest: Bucket, b: Bucket) {
    newest.lastSample != U64_MAX && b.firstSample == newest.lastSample + 1 &&
    b.generation == newest.generation && b.rate == newest.rate
  }

  // ---- The window as a list ------------------------------------------------

  function Appended(window: seq<Bucket>, b: Bucket, target: nat): seq<Bucket>
    requires target > 0
  {
    var run := if window != [] && !Continues(window[|window| - 1], b) then [] else window;
    if |run| < target then run + [b] else run[1..] + [b]
  }

  ghost function AppendAll(bs: seq<Bucket>, target: nat): seq<Bucket>
    requires target > 0
  {
    if bs == [] then [] else Appended(AppendAll(bs[..|bs| - 1], target), bs[|bs| - 1], target)
  }

  // The longest contiguous run that ends with the newest bucket.
  ghost function NewestRun(bs: seq<Bucket>): seq<Bucket> {
    if bs == [] then []
    else
      var before, b := NewestRun(bs[..|bs| - 1]), bs[|bs| - 1];
      if before != [] && !Continues(before[|before| - 1], b) then [b] else before + [b]
  }

  ghost function LastOf(s: seq<Bucket>, n: nat): seq<Bucket> { if |s| <= n then s else s[|s| - n..] }

  lemma AppendedLast(run: seq<Bucket>, b: Bucket, target: nat)
    requires target > 0
    ensures Appended(LastOf(run, target), b, target)
         == LastOf(if run != [] && !Continues(run[|run| - 1], b) then [b] else run + [b], target)
  {
    hide Continues;
    if run != [] { assert LastOf(run, target)[|LastOf(run, target)| - 1] == run[|run| - 1]; }
    if run == [] || !Continues(run[|run| - 1], b) {
      assert [] + [b] == [b];
    } else if |run| >= target {
      assert run[|run| - target..][1..] + [b] == (run + [b])[|run| + 1 - target..];
    }
  }

  // The window always holds the newest buckets of one contiguous run of one
  // generation and rate, in order.
  lemma {:induction false} WindowIsNewestRun(bs: seq<Bucket>, target: nat)
    requires target > 0
    ensures AppendAll(bs, target) == LastOf(NewestRun(bs), target)
    ensures bs != [] ==> NewestRun(bs) != [] && NewestRun(bs)[|NewestRun(bs)| - 1] == bs[|bs| - 1]
  {
    hide Appended, LastOf, Continues;
    if bs == [] {
      NoneLast(target);
    } else {
      WindowIsNewestRun(bs[..|bs| - 1], target);
      AppendedLast(NewestRun(bs[..|bs| - 1]), bs[|bs| - 1], target);
    }
  }

  lemma NoneLast(target: nat)
    ensures LastOf([], target) == []
  {
  }

  ghost predicate ContinuesAt(s: seq<Bucket>, k: nat)
    requires 0 < k < |s|
  {
    Continues(s[k - 1], s[k])
  }

  ghost predicate Contiguous(s: seq<Bucket>) { forall k :: 0 < k < |s| ==> ContinuesAt(s, k) }

  lemma {:induction false} NewestRunContiguous(bs: seq<Bucket>)
    ensures Contiguous(NewestRun(bs)) && |NewestRun(bs)| <= |bs|
    ensures NewestRun(bs) == bs[|bs| - |NewestRun(bs)|..]
  {
    if bs != [] {
      var init := bs[..|bs| - 1];
      NewestRunContiguous(init);
      hide Continues, Contiguous;
      ContiguousNext(NewestRun(init), bs[|bs| - 1]);
      SuffixNext(init, NewestRun(init), bs);
    }
  }

  lemma ContiguousNext(run: seq<Bucket>, b: Bucket)
    requires Contiguous(run)
    ensures Contiguous([b])
    ensures run != [] && Continues(run[|run| - 1], b) ==> Contiguous(run + [b])
  {
    hide Continues;
    if run != [] && Continues(run[|run| - 1], b) {
      forall k | 0 < k < |run + [b]| ensures ContinuesAt(run + [b], k) {
        if k < |run| { assert ContinuesAt(run, k); }
      }
    }
  }

  lemma SuffixNext(init: seq<Bucket>, run: seq<Bucket>, bs: seq<Bucket>)
    requires bs != [] && init == bs[..|bs| - 1] && |run| <= |init| && run == init[|init| - |run|..]
    ensures run + [bs[|bs| - 1]] == bs[|bs| - 1 - |run|..]
    ensures [bs[|bs| - 1]] == bs[|bs| - 1..]
  {
  }

  // ---- The weighted mean -----------------------------------------------------

  function TotalSamples(bs: seq<Bucket>): nat {
    if bs == [] then 0 else TotalSamples(bs[..|bs| - 1]) + bs[|bs| - 1].samples
  }

  function Weighted(bs: seq<Bucket>): int {
    if bs == [] then 0 else Weighted(bs[..|bs| - 1]) + bs[|bs| - 1].power * bs[|bs| - 1].samples
  }

  // The sample-weighted mean in micro-units, truncated toward zero once.
  ghost function Mean(bs: seq<Bucket>): int
    requires TotalSamples(bs) > 0
  {
    TruncDiv(Weighted(bs), TotalSamples(bs) * MICRO)
  }

  lemma TruncTwice(n: int, a: nat, b: nat)
    requires a > 0 && b > 0
    ensures a * b > 0 && TruncDiv(TruncDiv(n, a), b) == TruncDiv(n, a * b)
  {
    MulLe(1, a, b);
    DivTwice(Abs(n), a, b);
    DivSign(Abs(n), a);
    if n < 0 { TruncNegative(-n, a, b); }
  }

  lemma TruncNegative(n: int, a: nat, b: nat)
    requires n > 0 && a > 0 && b > 0 && a * b > 0 && n / a / b == n / (a * b) && n / a >= 0
    ensures TruncDiv(TruncDiv(-n, a), b) == TruncDiv(-n, a * b)
  {
    if n / a == 0 { assert 0 / b == 0; }
  }

  lemma DivTwice(n: nat, a: nat, b: nat)
    requires a > 0 && b > 0 && a * b > 0
    ensures n / a / b == n / (a * b)
  {
    var q := n / a / b;
    var r := n / a % b;
    assert n / a == q * b + r;
    assert n == (n / a) * a + n % a;
    assert (q * b + r) * a == q * (a * b) + r * a;
    MulLe(r, b - 1, a);
    assert (b - 1) * a == a * b - a;
    DivUnique(n, a * b, q);
  }

  lemma DivSign(n: nat, d: nat)
    requires d > 0
    ensures n / d >= 0
  {
  }

  lemma TruncMonotone(x: int, y: int, d: nat)
    requires d > 0 && x <= y
    ensures TruncDiv(x, d) <= TruncDiv(y, d)
  {
    if x >= 0 {
      DivMonotone(x, y, d);
    } else if y < 0 {
      DivMonotone(-y, -x, d);
    } else {
      DivSign(-x, d);
      DivSign(y, d);
    }
  }

  lemma DivMonotone(x: nat, y: nat, d: nat)
    requires d > 0 && x <= y
    ensures x / d <= y / d
  {
    assert x == x / d * d + x % d && y == y / d * d + y % d;
    if y / d < x / d { MulLe(y / d + 1, x / d, d); }
  }

  lemma TruncExact(m: int, d: nat)
    requires d > 0
    ensures TruncDiv(m * d, d) == m
  {
    if m * d < 0 { assert -(m * d) == (-m) * d; DivUnique(-(m * d), d, -m); } else { DivUnique(m * d, d, m); }
  }

  ghost predicate Bounded(bs: seq<Bucket>, low: int, high: int) {
    forall k :: 0 <= k < |bs| ==> low <= bs[k].power <= high
  }

  lemma WeightStep(sum: int, total: nat, power: int, samples: nat, low: int, high: int)
    requires low * total <= sum <= high * total && low <= power <= high
    ensures low * (total + samples) <= sum + power * samples <= high * (total + samples)
  {
    MulLe(low, power, samples);
    MulLe(power, high, samples);
  }

  lemma {:induction false} WeightedBetween(bs: seq<Bucket>, low: int, high: int)
    requires Bounded(bs, low, high)
    ensures low * TotalSamples(bs) <= Weighted(bs) <= high * TotalSamples(bs)
  {
    if bs != [] {
      var init, last := bs[..|bs| - 1], bs[|bs| - 1];
      WeightedBetween(init, low, high);
      WeightStep(Weighted(init), TotalSamples(init), last.power, last.samples, low, high);
    }
  }

  // The published value is the truncated mean, lies between the extremes of its
  // buckets and therefore never leaves the signed 64-bit range.
  lemma MeanBetween(bs: seq<Bucket>, low: i64, high: i64)
    requires TotalSamples(bs) > 0 && Bounded(bs, low, high)
    ensures low <= TruncDiv(Weighted(bs), TotalSamples(bs)) <= high
    ensures Mean(bs) == TruncDiv(TruncDiv(Weighted(bs), TotalSamples(bs)), MICRO)
    ensures TruncDiv(low, MICRO) <= Mean(bs) <= TruncDiv(high, MICRO)
    ensures I64_MIN <= Mean(bs) <= I64_MAX
  {
    var total, sum := TotalSamples(bs), Weighted(bs);
    WeightedBetween(bs, low, high);
    TruncMonotone(low * total, sum, total);
    TruncMonotone(sum, high * total, total);
    TruncExact(low, total);
    TruncExact(high, total);
    TruncTwice(sum, total, MICRO);
    TruncMonotone(low, TruncDiv(sum, total), MICRO);
    TruncMonotone(TruncDiv(sum, total), high, MICRO);
  }

  // ---- The engine in place ------------------------------------------------------

  // One finished 150/180-cycle family; an invalid one ends the window. Its
  // head record may not have been seen, and then it is not valid.
  datatype Interval = Interval(seen: bool, complete: bool, bucket: Bucket)

  predicate Usable(i: Interval) { i.seen && i.complete && i.bucket.samples != 0 }

  datatype Demand = Demand(value: int, valid: bool, buckets: nat, firstSample: u64, lastSample: u64,
    importPeak: nat, exportPeak: nat)

  datatype Peak = Peak(value: nat, anchor: u64)

  // Raise a peak to a published value, with the time it was first reached.
  function Raised(p: Peak, value: int, anchor: u64): Peak {
    if value > p.value then Peak(value, anchor) else p
  }

  // The peak over a list of published values and their last samples.
  function PeakOf(published: seq<(int, u64)>, sign: int): Peak {
    if published == [] then Peak(0, 0)
    else
      var (value, anchor) := published[|published| - 1];
      Raised(PeakOf(published[..|published| - 1], sign), sign * value, anchor)
  }

  ghost predicate FirstReached(published: seq<(int, u64)>, sign: int, p: Peak, k: nat)
    requires k < |published|
  {
    && sign * published[k].0 == p.value && published[k].1 == p.anchor
    && forall j :: 0 <= j < k ==> sign * published[j].0 < p.value
  }

  // The peak is the largest published value, zero if none was positive, and its
  // anchor is the first record that reached it.
  lemma {:induction false} PeakIsLargest(published: seq<(int, u64)>, sign: int)
    ensures var p := PeakOf(published, sign);
            && (forall k :: 0 <= k < |published| ==> sign * published[k].0 <= p.value)
            && (p.value > 0 ==> exists k :: 0 <= k < |published| && FirstReached(published, sign, p, k))
  {
    if published != [] {
      var init := published[..|published| - 1];
      PeakIsLargest(init, sign);
      var before, p := PeakOf(init, sign), PeakOf(published, sign);
      var last := |published| - 1;
      if p == before {
        if p.value > 0 {
          var k :| 0 <= k < |init| && FirstReached(init, sign, before, k);
          assert forall j :: 0 <= j <= k ==> published[j] == init[j];
          assert FirstReached(published, sign, p, k);
        }
      } else {
        assert forall j :: 0 <= j < last ==> published[j] == init[j];
        assert FirstReached(published, sign, p, last);
      }
    }
  }

  lemma PeakAppend(published: seq<(int, u64)>, sign: int, value: int, anchor: u64)
    ensures PeakOf(published + [(value, anchor)], sign) == Raised(PeakOf(published, sign), sign * value, anchor)
  {
    assert (published + [(value, anchor)])[..|published|] == published;
  }

  class Engine {
    const buckets: array<Bucket>
    var head: nat
    var count: nat
    var window: nat
    var generation: u32
    var current: int
    var saturated: bool
    var incomplete: bool
    var importPeak: Peak
    var exportPeak: Peak
    // The buffered intervals, oldest first, and the values published under
    // this profile.
    ghost var list: seq<Bucket>
    ghost var published: seq<(int, u64)>

    // The circular buffer holds the list from `head` on.
    ghost predicate Held()
      reads this`head, this`count, this`window, this`list, buckets
    {
      && buckets.Length == MAXIMUM_BUCKETS && ValidWindow(window)
      && head < Target(window) && count == |list| <= Target(window)
      && (forall k :: 0 <= k < count ==> buckets[Index(head, k, Target(window))] == list[k])
    }

    ghost predicate Valid()
      reads this, buckets
    {
      && Held()
      && (forall k :: 0 <= k < count ==> list[k].samples > 0)
      && !saturated
      && importPeak == PeakOf(published, 1) && exportPeak == PeakOf(published, -1)
    }

    constructor ()
      ensures Valid() && fresh(buckets) && list == [] && published == [] && window == 60
    {
      buckets := new Bucket[MAXIMUM_BUCKETS](_ => Bucket(0, 0, 0, 0, 0, 0));
      head, count, window, generation, current := 0, 0, 60, 1, 0;
      saturated, incomplete, importPeak, exportPeak := false, false, Peak(0, 0), Peak(0, 0);
      list, published := [], [];
    }

    // A changed profile starts window and peaks again; an invalid one is refused.
    method Configure(seconds: nat, profile: u32) returns (accepted: bool)
      requires Valid()
      modifies this
      ensures Valid() && accepted == (ValidWindow(seconds) && profile != 0)
      ensures !accepted || (seconds == old(window) && profile == old(generation)) ==>
        list == old(list) && published == old(published) && window == old(window)
      ensures accepted && !(seconds == old(window) && profile == old(generation)) ==>
        list == [] && published == [] && window == seconds && generation == profile
    {
      if !ValidWindow(seconds) || profile == 0 {
        return false;
      }
      if seconds == window && profile == generation {
        return true;
      }
      window, generation := seconds, profile;
      importPeak, exportPeak, current := Peak(0, 0), Peak(0, 0), 0;
      saturated, incomplete := false, false;
      published := [];
      ClearWindow();
      accepted := true;
    }

    method ClearWindow()
      requires buckets.Length == MAXIMUM_BUCKETS && ValidWindow(window)
      modifies this`head, this`count, this`list
      ensures Held() && list == []
    {
      head, count, list := 0, 0, [];
    }

    method Append(b: Bucket) returns (complete: bool)
      requires Held()
      modifies this`head, this`count, this`list, buckets
      ensures Held() && list == Appended(old(list), b, Target(window))
      ensures complete == (count == Target(window))
    {
      hide Continues;
      var target := Target(window);
      if count != 0 {
        var newest := buckets[Index(head, count - 1, target)];
        assert newest == list[count - 1];
        if !Continues(newest, b) {
          ClearWindow();
        }
      }
      if count < target {
        PlaceNewest(b);
      } else {
        ReplaceOldest(b);
      }
      complete := count == target;
    }

    method PlaceNewest(b: Bucket)
      requires Held() && count < Target(window)
      modifies this`count, this`list, buckets
      ensures Held() && list == old(list) + [b]
    {
      var target := Target(window);
      forall k | 0 <= k < count ensures Index(head, k, target) != Index(head, count, target) {
        Elsewhere(head, k, count, target);
      }
      var index := Index(head, count, target);
      hide Index;
      buckets[index] := b;
      count := count + 1;
      list := list + [b];
    }

    method ReplaceOldest(b: Bucket)
      requires Held() && count == Target(window)
      modifies this`head, this`list, buckets
      ensures Held() && list == old(list)[1..] + [b]
    {
      var target := Target(window);
      var next := Index(head, 1, target);
      forall k | 0 < k < count ensures Index(head, k, target) != head {
        Elsewhere(head, 0, k, target);
      }
      forall k | 0 <= k < target
        ensures Index(next, k, target) == if k < target - 1 then Index(head, k + 1, target) else head
      {
        Rotate(head, k, target);
      }
      hide Index;
      buckets[head] := b;
      head := next;
      list := list[1..] + [b];
    }

    // The totals over the whole window.
    method Sums() returns (samples: nat, weighted: int)
      requires Held()
      ensures samples == TotalSamples(list) && weighted == Weighted(list)
    {
      var target := Target(window);
      samples, weighted := 0, 0;
      for offset := 0 to count
        invariant samples == TotalSamples(list[..offset]) && weighted == Weighted(list[..offset])
      {
        var b := buckets[Index(head, offset, target)];
        assert list[..offset + 1][..offset] == list[..offset] && b == list[offset];
        samples, weighted := samples + b.samples, weighted + b.power * b.samples;
      }
      assert list[..count] == list;
    }

    // With no samples the value is zero; otherwise neither clamp is ever taken.
    method Calculate()
      requires Held() && list != []
      modifies this`current, this`saturated
      ensures TotalSamples(list) == 0 ==> current == 0
      ensures TotalSamples(list) > 0 ==> current == Mean(list)
      ensures saturated == old(saturated)
    {
      hide Weighted, Mean;
      var samples, weighted := Sums();
      if samples == 0 {
        current := 0;
        return;
      }
      var microWatts := TruncDiv(TruncDiv(weighted, samples), MICRO);
      if microWatts > I64_MAX {
        current, saturated := I64_MAX, true;
      } else if microWatts < I64_MIN {
        current, saturated := I64_MIN, true;
      } else {
        current := microWatts;
      }
      MeanBetween(list, I64_MIN, I64_MAX);
    }

    method UpdatePeaks(anchor: u64)
      requires Valid()
      modifies this`importPeak, this`exportPeak, this`published
      ensures Valid() && published == old(published) + [(current, anchor)]
    {
      hide PeakOf, Held;
      PeakAppend(published, 1, current, anchor);
      PeakAppend(published, -1, current, anchor);
      if current > 0 {
        if current > importPeak.value {
          importPeak := Peak(current, anchor);
        }
      } else if current < 0 {
        if -current > exportPeak.value {
          exportPeak := Peak(-current, anchor);
        }
      }
      published := published + [(current, anchor)];
    }

    // Publish the mean of a full window and raise the peaks.
    method Publish(lastSample: u64) returns (record: Demand)
      requires Valid() && list != []
      modifies this`current, this`saturated, this`importPeak, this`exportPeak, this`published
      ensures Valid() && TotalSamples(list) > 0
      ensures record == Demand(Mean(list), true, |list|, list[0].firstSample, lastSample,
                               importPeak.value, exportPeak.value)
      ensures published == old(published) + [(Mean(list), lastSample)]
    {
      hide PeakOf, Mean, TotalSamples;
      SomeSamples(list);
      Calculate();
      UpdatePeaks(lastSample);
      OldestAtHead(head, Target(window));
      record := Demand(current, true, count, buckets[head].firstSample, lastSample,
                       importPeak.value, exportPeak.value);
    }

    method ObserveValid(b: Bucket) returns (record: Option<Demand>)
      requires Valid() && b.samples > 0
      modifies this, buckets
      ensures Valid() && window == old(window) && list == Appended(old(list), b, Target(window))
      ensures record.Some? <==> |list| == Target(window)
      ensures record.None? ==> published == old(published)
      ensures record.Some? ==>
        && list != [] && TotalSamples(list) > 0
        && record.value == Demand(Mean(list), true, |list|, list[0].firstSample, b.lastSample,
                                  importPeak.value, exportPeak.value)
        && published == old(published) + [(Mean(list), b.lastSample)]
    {
      hide PeakOf, Mean, TotalSamples, Continues, Index;
      incomplete := false;
      var complete := Append(b);
      if !complete {
        return None;
      }
      var demand := Publish(b.lastSample);
      record := Some(demand);
    }

    // An invalid interval empties the window and, if it was seen at all,
    // publishes an invalid record; a window still filling publishes nothing.
    method Observe(i: Interval) returns (record: Option<Demand>)
      requires Valid()
      modifies this, buckets
      ensures Valid() && window == old(window)
      ensures !Usable(i) ==> list == [] && published == old(published) && (record.Some? <==> i.seen)
      ensures !Usable(i) && i.seen ==>
        record.value == Demand(0, false, 0, i.bucket.firstSample, i.bucket.lastSample,
                               importPeak.value, exportPeak.value)
      ensures Usable(i) ==> list == Appended(old(list), i.bucket, Target(window))
      ensures Usable(i) ==> (record.Some? <==> |list| == Target(window))
      ensures Usable(i) && record.Some? ==>
        && list != [] && TotalSamples(list) > 0 && record.value.valid && record.value.value == Mean(list)
        && published == old(published) + [(Mean(list), i.bucket.lastSample)]
    {
      hide PeakOf, Mean, TotalSamples, Appended, Index;
      record := None;
      if Usable(i) {
        record := ObserveValid(i.bucket);
      } else {
        ClearWindow();
        incomplete, current := true, 0;
        if i.seen {
          record := Some(Demand(0, false, 0, i.bucket.firstSample, i.bucket.lastSample,
                                importPeak.value, exportPeak.value));
        }
      }
    }
  }

  lemma OldestAtHead(head: nat, target: nat)
    requires head < target
    ensures Index(head, 0, target) == head
  {
    Reduced(head, target);
  }

  lemma Elsewhere(head: nat, j: nat, k: nat, target: nat)
    requires j < k < target && head < target
    ensures Index(head, j, target) != Index(head, k, target) && Index(head, 0, target) == head
  {
    Reduced(head, target);
    assert head + j < 2 * target && head + k < 2 * target;
    Reduced(head + j, target);
    Reduced(head + k, target);
  }

  lemma Reduced(n: nat, target: nat)
    requires target > 0 && n < 2 * target
    ensures n % target == if n < target then n else n - target
  {
    if n < target { ModUnique(n, target, 0, n); } else { ModUnique(n, target, 1, n - target); }
  }

  lemma Rotate(head: nat, k: nat, target: nat)
    requires head < target && k < target
    ensures Index(Index(head, 1, target), k, target) == if k < target - 1 then Index(head, k + 1, target) else head
  {
    Reduced(head + 1, target);
    Reduced(head + 1 + k, target);
    Reduced(Index(head, 1, target) + k, target);
  }

  lemma SomeSamples(bs: seq<Bucket>)
    requires bs != [] && forall k :: 0 <= k < |bs| ==> bs[k].samples > 0
    ensures TotalSamples(bs) > 0
  {
    assert bs[|bs| - 1].samples > 0;
  }
}
